// The MySQL connection pool (server/dbproxy/MySQLConnectionPool.cpp) until shutdown.  Each
// region between taking and releasing the pool's mutex is one step; connections are created
// and pinged outside it, so other threads run in between.
module ConnPool {
  import opened Wrappers

  type Conn = nat   // identity of a connection object
  type Tid = nat

  /** The fields the mutex protects. */
  datatype Pool = Pool(idle: seq<Conn>, all: seq<Conn>, active: int, creating: int, max: int)

  // ---- the locked regions, as functions of the fields ----------------------------------

  /** One turn of acquire's loop. */
  datatype Turn = GotIdle(c: Conn) | Grow | MustWait

  function TurnOf(p: Pool): Turn {
    if p.idle != [] then GotIdle(p.idle[0])
    else if |p.all| + p.creating < p.max then Grow
    else MustWait
  }

  function AfterTurn(p: Pool): Pool {
    match TurnOf(p)
    case GotIdle(_) => p.(idle := p.idle[1..], active := p.active + 1)
    case Grow => p.(creating := p.creating + 1)
    case MustWait => p
  }

  /** Back under the lock with a new connection, or none; a new one is queued and the loop
      turns again before the lock is released. */
  function AfterCreate(p: Pool, made: Option<Conn>): Pool {
    var q := p.(creating := p.creating - 1);
    match made
    case None => q   // straight to the wait
    case Some(c) => AfterTurn(q.(all := q.all + [c], idle := q.idle + [c]))
  }

  function Released(p: Pool, c: Conn): Pool { p.(active := p.active - 1, idle := p.idle + [c]) }

  function Emptied(p: Pool): Pool { p.(idle := []) }

  function Erased(list: seq<Conn>, c: Conn): seq<Conn> {
    if list == [] then [] else if list[0] == c then list[1..] else [list[0]] + Erased(list[1..], c)
  }

  function DroppedFrom(p: Pool, c: Conn): Pool { p.(all := Erased(p.all, c)) }

  function PutBack(p: Pool, healthy: seq<Conn>): Pool { p.(idle := p.idle + healthy) }

  // ---- the whole system ---------------------------------------------------------------

  datatype Pc =
    | Outside                                          // not in the pool's code, or waiting in acquire
    | Creating                                         // createOne, without the lock
    | Checking(todo: seq<Conn>, healthy: seq<Conn>)    // healthCheck, without the lock

  /** Where a connection of the pool is. */
  datatype Place = InIdle | Lent(t: Tid) | UnderCheck(t: Tid)

  datatype State = State(
    pool: Pool,
    pcs: seq<Pc>,
    holds: seq<set<Conn>>,      // connections each thread has borrowed
    deleted: set<Conn>,
    place: map<Conn, Place>)    // auxiliary

  datatype Action =
    | Turning(t: Tid)
    | Created(t: Tid, made: Option<Conn>)
    | Release(t: Tid, c: Conn)
    | Pass(t: Tid, u: Tid, c: Conn)      // the borrower hands its shared_ptr on
    | CheckStart(t: Tid)
    | CheckOk(t: Tid)                    // ping or reconnect succeeded
    | CheckDrop(t: Tid)                  // reconnect failed: erased and deleted
    | CheckEnd(t: Tid)

  predicate Enabled(s: State, a: Action) {
    && a.t < |s.pcs| == |s.holds|
    && match a
       case Turning(t) => s.pcs[t].Outside?
       case Created(t, made) =>
         s.pcs[t].Creating? && (made.Some? ==> made.value !in s.pool.all && made.value !in s.deleted)
       case Release(t, c) => c in s.holds[t]
       case Pass(t, u, c) => u < |s.pcs| && u != t && c in s.holds[t]
       case CheckStart(t) => s.pcs[t].Outside?
       case CheckOk(t) => s.pcs[t].Checking? && s.pcs[t].todo != []
       case CheckDrop(t) => s.pcs[t].Checking? && s.pcs[t].todo != []
       case CheckEnd(t) => s.pcs[t].Checking? && s.pcs[t].todo == []
  }

  function Borrow(s: State, t: Tid, turn: Turn): State
    requires t < |s.pcs| == |s.holds|
  {
    match turn
    case GotIdle(c) => s.(pcs := s.pcs[t := Outside], holds := s.holds[t := s.holds[t] + {c}], place := s.place[c := Lent(t)])
    case Grow => s.(pcs := s.pcs[t := Creating])
    case MustWait => s.(pcs := s.pcs[t := Outside])
  }

  function Apply(s: State, a: Action): State
    requires Enabled(s, a)
  {
    match a
    case Turning(t) => Borrow(s.(pool := AfterTurn(s.pool)), t, TurnOf(s.pool))
    case Created(t, None) => s.(pool := AfterCreate(s.pool, None), pcs := s.pcs[t := Outside])
    case Created(t, Some(c)) =>
      Borrow(s.(pool := AfterCreate(s.pool, Some(c)), place := s.place[c := InIdle]), t, GotIdle((s.pool.idle + [c])[0]))
    case Release(t, c) =>
      s.(pool := Released(s.pool, c), holds := s.holds[t := s.holds[t] - {c}], place := s.place[c := InIdle])
    case Pass(t, u, c) =>
      s.(holds := s.holds[t := s.holds[t] - {c}][u := s.holds[u] + {c}], place := s.place[c := Lent(u)])
    case CheckStart(t) =>
      s.(pool := Emptied(s.pool), pcs := s.pcs[t := Checking(s.pool.idle, [])],
         place := map c | c in s.place :: if s.place[c] == InIdle then UnderCheck(t) else s.place[c])
    case CheckOk(t) =>
      s.(pcs := s.pcs[t := Checking(s.pcs[t].todo[1..], s.pcs[t].healthy + [s.pcs[t].todo[0]])])
    case CheckDrop(t) =>
      var c := s.pcs[t].todo[0];
      s.(pool := DroppedFrom(s.pool, c), pcs := s.pcs[t := Checking(s.pcs[t].todo[1..], s.pcs[t].healthy)],
         deleted := s.deleted + {c}, place := s.place - {c})
    case CheckEnd(t) =>
      s.(pool := PutBack(s.pool, s.pcs[t].healthy), pcs := s.pcs[t := Outside],
         place := map c | c in s.place :: if s.place[c] == UnderCheck(t) then InIdle else s.place[c])
  }

  predicate Legal(s: State, acts: seq<Action>)
    decreases |acts|
  {
    acts == [] || (Enabled(s, acts[0]) && Legal(Apply(s, acts[0]), acts[1..]))
  }

  function Final(s: State, acts: seq<Action>): State
    requires Legal(s, acts)
    decreases |acts|
  {
    if acts == [] then s else Final(Apply(s, acts[0]), acts[1..])
  }

  ghost predicate Distinct(list: seq<Conn>) {
    forall i, j :: 0 <= i < j < |list| ==> list[i] != list[j]
  }

  /** After the constructor: up to pool_size connections, all idle. */
  ghost predicate Initial(s: State, poolSize: nat) {
    && s.pool.idle == s.pool.all && Distinct(s.pool.all) && |s.pool.all| <= poolSize
    && s.pool.active == 0 && s.pool.creating == 0 && |s.holds| == |s.pcs| && s.deleted == {}
    && (forall t :: 0 <= t < |s.pcs| ==> s.pcs[t] == Outside && s.holds[t] == {})
    && s.place == map c | c in s.pool.all :: InIdle
  }

  // ---- invariant ----------------------------------------------------------------------

  function LentOut(place: map<Conn, Place>): set<Conn> { set c | c in place && place[c].Lent? }

  function Creators(pcs: seq<Pc>): nat {
    if pcs == [] then 0 else (if pcs[0].Creating? then 1 else 0) + Creators(pcs[1..])
  }

  function Checked(pc: Pc): seq<Conn> { if pc.Checking? then pc.todo + pc.healthy else [] }

  ghost predicate Placed(s: State) {
    && (forall c :: c in s.pool.all <==> c in s.place)
    && Distinct(s.pool.all)
    && Distinct(s.pool.idle) && (forall c :: c in s.pool.idle <==> c in s.place && s.place[c] == InIdle)
    && (forall c :: c in s.place && s.place[c].Lent? ==> s.place[c].t < |s.holds|)
    && (forall c :: c in s.place && s.place[c].UnderCheck? ==> s.place[c].t < |s.pcs|)
    && s.deleted !! s.place.Keys
  }

  ghost predicate HoldsOk(s: State, t: Tid)
    requires t < |s.holds|
  {
    forall c :: c in s.holds[t] <==> c in s.place && s.place[c] == Lent(t)
  }

  ghost predicate CheckedOk(s: State, t: Tid)
    requires t < |s.pcs|
  {
    && Distinct(Checked(s.pcs[t]))
    && forall c :: c in Checked(s.pcs[t]) <==> c in s.place && s.place[c] == UnderCheck(t)
  }

  ghost predicate Counts(s: State) {
    && s.pool.active == |LentOut(s.place)|
    && s.pool.creating == Creators(s.pcs)
    && |s.pool.all| + s.pool.creating <= s.pool.max
  }

  ghost predicate Threads(s: State) {
    && |s.pcs| == |s.holds|
    && (forall t :: 0 <= t < |s.pcs| ==> HoldsOk(s, t))
    && (forall t :: 0 <= t < |s.pcs| ==> CheckedOk(s, t))
  }

  ghost predicate Inv(s: State) { Placed(s) && Threads(s) && Counts(s) }

  lemma {:induction false} NoCreators(pcs: seq<Pc>)
    requires forall t :: 0 <= t < |pcs| ==> pcs[t] == Outside
    ensures Creators(pcs) == 0
  {
    if pcs != [] {
      NoCreators(pcs[1..]);
    }
  }

  lemma {:induction false} CreatorsUpdate(pcs: seq<Pc>, t: Tid, pc: Pc)
    requires t < |pcs|
    ensures Creators(pcs[t := pc]) ==
      Creators(pcs) - (if pcs[t].Creating? then 1 else 0) + (if pc.Creating? then 1 else 0)
  {
    var qs := pcs[t := pc];
    if t == 0 {
      assert qs[1..] == pcs[1..];
    } else {
      CreatorsUpdate(pcs[1..], t - 1, pc);
      assert qs[1..] == pcs[1..][t - 1 := pc];
    }
  }

  lemma InitInv(s: State, poolSize: nat)
    requires Initial(s, poolSize) && poolSize <= s.pool.max
    ensures Inv(s)
  {
    NoCreators(s.pcs);
    assert LentOut(s.place) == {};
  }

  // ---- lists --------------------------------------------------------------------------

  lemma DistinctTail(list: seq<Conn>)
    requires Distinct(list) && list != []
    ensures Distinct(list[1..]) && forall c :: c in list[1..] <==> c in list && c != list[0]
  {
    forall c | c in list && c != list[0] ensures c in list[1..] {
      var i :| 0 <= i < |list| && list[i] == c;
      assert list[1..][i - 1] == c;
    }
    forall c | c in list[1..] ensures c in list && c != list[0] {
      var i :| 0 <= i < |list[1..]| && list[1..][i] == c;
      assert list[i + 1] == c;
    }
  }

  lemma DistinctSnoc(list: seq<Conn>, c: Conn)
    requires Distinct(list) && c !in list
    ensures Distinct(list + [c]) && forall x :: x in list + [c] <==> x in list || x == c
  {
    forall i, j | 0 <= i < j < |list + [c]| ensures (list + [c])[i] != (list + [c])[j] {
      assert list[i] in list;
    }
  }

  lemma DistinctJoin(a: seq<Conn>, b: seq<Conn>)
    requires Distinct(a) && Distinct(b) && forall x :: x in a ==> x !in b
    ensures Distinct(a + b) && forall x :: x in a + b <==> x in a || x in b
  {
    assert forall i :: 0 <= i < |a| ==> a[i] in a;
    assert forall i :: 0 <= i < |b| ==> b[i] in b;
  }

  lemma {:induction false} ErasedIs(list: seq<Conn>, c: Conn)
    requires Distinct(list) && c in list
    ensures Distinct(Erased(list, c)) && |Erased(list, c)| == |list| - 1
    ensures forall x :: x in Erased(list, c) <==> x in list && x != c
  {
    DistinctTail(list);
    if list[0] != c {
      ErasedIs(list[1..], c);
      var e := Erased(list[1..], c);
      assert list[0] !in e;
      assert forall i :: 0 <= i < |e| ==> e[i] in e;
    }
  }

  // ---- steps --------------------------------------------------------------------------

  function Take(s: State, t: Tid): State
    requires t < |s.pcs| == |s.holds| && s.pool.idle != []
  {
    Borrow(s.(pool := AfterTurn(s.pool)), t, GotIdle(s.pool.idle[0]))
  }

  lemma TakePlaced(s: State, t: Tid)
    requires Placed(s) && t < |s.pcs| == |s.holds| && s.pcs[t] == Outside && s.pool.idle != []
    ensures Placed(Take(s, t)) && s.place[s.pool.idle[0]] == InIdle
  {
    assert s.pool.idle[0] in s.pool.idle;
    DistinctTail(s.pool.idle);
  }

  lemma TakeInv(s: State, t: Tid)
    requires Inv(s) && t < |s.pcs| && s.pcs[t] == Outside && s.pool.idle != []
    ensures Inv(Take(s, t))
  {
    hide Distinct;
    var s', c := Take(s, t), s.pool.idle[0];
    assert c in s.pool.idle;
    TakePlaced(s, t);
    assert s'.pcs == s.pcs;
    forall u | 0 <= u < |s.pcs| ensures HoldsOk(s', u) && CheckedOk(s', u) {
      assert HoldsOk(s, u) && CheckedOk(s, u);
    }
    assert LentOut(s'.place) == LentOut(s.place) + {c};
  }

  lemma GrowInv(s: State, t: Tid)
    requires Inv(s) && t < |s.pcs| && s.pcs[t] == Outside && TurnOf(s.pool).Grow?
    ensures Inv(Apply(s, Turning(t)))
  {
    var s' := Apply(s, Turning(t));
    CreatorsUpdate(s.pcs, t, Creating);
    SamePlaces(s, s', t);
  }

  /** Only the program counter of t changes, and nothing it has under check. */
  lemma SamePlaces(s: State, s': State, t: Tid)
    requires Placed(s) && Threads(s) && t < |s.pcs|
    requires s'.place == s.place && s'.deleted == s.deleted && s'.holds == s.holds
    requires s'.pool.all == s.pool.all && s'.pool.idle == s.pool.idle
    requires |s'.pcs| == |s.pcs| && forall u :: 0 <= u < |s.pcs| && u != t ==> s'.pcs[u] == s.pcs[u]
    requires Distinct(Checked(s'.pcs[t])) && forall c :: c in Checked(s'.pcs[t]) <==> c in Checked(s.pcs[t])
    ensures Placed(s') && Threads(s')
  {
    forall u | 0 <= u < |s.pcs| ensures HoldsOk(s', u) && CheckedOk(s', u) {
      assert HoldsOk(s, u) && CheckedOk(s, u);
    }
  }

  /** A new connection joins the pool, idle. */
  function Added(s: State, t: Tid, c: Conn): State
    requires t < |s.pcs|
  {
    var p := s.pool;
    s.(pool := p.(creating := p.creating - 1, all := p.all + [c], idle := p.idle + [c]),
       pcs := s.pcs[t := Outside], place := s.place[c := InIdle])
  }

  lemma AddedInv(s: State, t: Tid, c: Conn)
    requires Inv(s) && Enabled(s, Created(t, Some(c)))
    ensures Inv(Added(s, t, c))
  {
    var s' := Added(s, t, c);
    assert c !in s.place;
    DistinctSnoc(s.pool.all, c);
    DistinctSnoc(s.pool.idle, c);
    CreatorsUpdate(s.pcs, t, Outside);
    forall u | 0 <= u < |s.pcs| ensures HoldsOk(s', u) && CheckedOk(s', u) {
      assert HoldsOk(s, u) && CheckedOk(s, u);
    }
    assert LentOut(s'.place) == LentOut(s.place);
  }

  lemma CreatedInv(s: State, t: Tid, made: Option<Conn>)
    requires Inv(s) && Enabled(s, Created(t, made))
    ensures Inv(Apply(s, Created(t, made)))
  {
    hide Inv, Apply, Take;
    match made
    case Some(c) =>
      AddedInv(s, t, c);
      TakeInv(Added(s, t, c), t);
      CreatedIsTake(s, t, c);
    case None => CreateFailedInv(s, t);
  }

  lemma CreateFailedInv(s: State, t: Tid)
    requires Inv(s) && Enabled(s, Created(t, None))
    ensures Inv(Apply(s, Created(t, None)))
  {
    CreatorsUpdate(s.pcs, t, Outside);
    SamePlaces(s, Apply(s, Created(t, None)), t);
  }

  lemma CreatedIsTake(s: State, t: Tid, c: Conn)
    requires Enabled(s, Created(t, Some(c)))
    ensures Apply(s, Created(t, Some(c))) == Take(Added(s, t, c), t)
  {
  }

  lemma ReleaseInv(s: State, t: Tid, c: Conn)
    requires Inv(s) && Enabled(s, Release(t, c))
    ensures Inv(Apply(s, Release(t, c)))
  {
    var s' := Apply(s, Release(t, c));
    assert HoldsOk(s, t);
    DistinctSnoc(s.pool.idle, c);
    forall u | 0 <= u < |s.pcs| ensures HoldsOk(s', u) && CheckedOk(s', u) {
      assert HoldsOk(s, u) && CheckedOk(s, u);
    }
    assert LentOut(s'.place) == LentOut(s.place) - {c};
    assert c in LentOut(s.place);
  }

  lemma PassInv(s: State, t: Tid, u: Tid, c: Conn)
    requires Inv(s) && Enabled(s, Pass(t, u, c))
    ensures Inv(Apply(s, Pass(t, u, c)))
  {
    var s' := Apply(s, Pass(t, u, c));
    assert HoldsOk(s, t) && HoldsOk(s, u);
    forall v | 0 <= v < |s.pcs| ensures HoldsOk(s', v) && CheckedOk(s', v) {
      assert HoldsOk(s, v) && CheckedOk(s, v);
    }
    assert LentOut(s'.place) == LentOut(s.place);
  }

  lemma CheckStartInv(s: State, t: Tid)
    requires Inv(s) && Enabled(s, CheckStart(t))
    ensures Inv(Apply(s, CheckStart(t)))
  {
    var s' := Apply(s, CheckStart(t));
    assert CheckedOk(s, t);
    assert s.pool.idle + [] == s.pool.idle;
    CreatorsUpdate(s.pcs, t, Checking(s.pool.idle, []));
    forall u | 0 <= u < |s.pcs| ensures HoldsOk(s', u) && CheckedOk(s', u) {
      assert HoldsOk(s, u) && CheckedOk(s, u);
    }
    assert LentOut(s'.place) == LentOut(s.place);
  }

  lemma CheckOkInv(s: State, t: Tid)
    requires Inv(s) && Enabled(s, CheckOk(t))
    ensures Inv(Apply(s, CheckOk(t)))
  {
    var s', w := Apply(s, CheckOk(t)), s.pcs[t];
    assert CheckedOk(s, t);
    Rotated(w.todo, w.healthy);
    CreatorsUpdate(s.pcs, t, s'.pcs[t]);
    SamePlaces(s, s', t);
  }

  lemma Rotated(todo: seq<Conn>, healthy: seq<Conn>)
    requires todo != [] && Distinct(todo + healthy)
    ensures Distinct(todo[1..] + (healthy + [todo[0]]))
    ensures forall c :: c in todo[1..] + (healthy + [todo[0]]) <==> c in todo + healthy
  {
    var all := todo + healthy;
    DistinctTail(all);
    assert all[1..] == todo[1..] + healthy && all[0] == todo[0];
    DistinctSnoc(all[1..], todo[0]);
    assert todo[1..] + (healthy + [todo[0]]) == all[1..] + [todo[0]];
  }

  lemma CheckDropInv(s: State, t: Tid)
    requires Inv(s) && Enabled(s, CheckDrop(t))
    ensures Inv(Apply(s, CheckDrop(t)))
  {
    var s', w := Apply(s, CheckDrop(t)), s.pcs[t];
    var c := w.todo[0];
    assert CheckedOk(s, t);
    assert (w.todo + w.healthy)[0] == c && c in w.todo + w.healthy;
    DistinctTail(w.todo + w.healthy);
    assert (w.todo + w.healthy)[1..] == w.todo[1..] + w.healthy;
    ErasedIs(s.pool.all, c);
    CreatorsUpdate(s.pcs, t, s'.pcs[t]);
    forall u | 0 <= u < |s.pcs| ensures HoldsOk(s', u) && CheckedOk(s', u) {
      assert HoldsOk(s, u) && CheckedOk(s, u);
    }
    assert LentOut(s'.place) == LentOut(s.place);
  }

  lemma CheckEndInv(s: State, t: Tid)
    requires Inv(s) && Enabled(s, CheckEnd(t))
    ensures Inv(Apply(s, CheckEnd(t)))
  {
    var s', w := Apply(s, CheckEnd(t)), s.pcs[t];
    assert CheckedOk(s, t);
    assert w.todo + w.healthy == w.healthy;
    DistinctJoin(s.pool.idle, w.healthy);
    CreatorsUpdate(s.pcs, t, Outside);
    forall u | 0 <= u < |s.pcs| ensures HoldsOk(s', u) && CheckedOk(s', u) {
      assert HoldsOk(s, u) && CheckedOk(s, u);
    }
    assert LentOut(s'.place) == LentOut(s.place);
  }

  lemma {:induction false} StepInv(s: State, a: Action)
    requires Inv(s) && Enabled(s, a)
    ensures Inv(Apply(s, a))
  {
    hide Inv, Borrow, AfterTurn, AfterCreate;
    match a
    case Turning(t) => TurnInv(s, t);
    case Created(t, made) => CreatedInv(s, t, made);
    case Release(t, c) => ReleaseInv(s, t, c);
    case Pass(t, u, c) => PassInv(s, t, u, c);
    case CheckStart(t) => CheckStartInv(s, t);
    case CheckOk(t) => CheckOkInv(s, t);
    case CheckDrop(t) => CheckDropInv(s, t);
    case CheckEnd(t) => CheckEndInv(s, t);
  }

  lemma TurnInv(s: State, t: Tid)
    requires Inv(s) && Enabled(s, Turning(t))
    ensures Inv(Apply(s, Turning(t)))
  {
    hide Inv;
    match TurnOf(s.pool)
    case GotIdle(_) => TakeInv(s, t);
    case Grow => GrowInv(s, t);
    case MustWait => assert s.pcs[t := Outside] == s.pcs;
  }

  lemma {:induction false} RunInv(s: State, acts: seq<Action>)
    requires Inv(s) && Legal(s, acts)
    ensures Inv(Final(s, acts))
    decreases |acts|
  {
    hide Inv, Enabled, Apply;
    if acts != [] {
      StepInv(s, acts[0]);
      RunInv(Apply(s, acts[0]), acts[1..]);
    }
  }

  // ---- what every run of any number of threads keeps -----------------------------------

  ghost predicate Idle(s: State, c: Conn) { c in s.pool.idle }

  ghost predicate HeldBy(s: State, t: Tid, c: Conn) { t < |s.holds| && c in s.holds[t] }

  ghost predicate CheckedBy(s: State, t: Tid, c: Conn) { t < |s.pcs| && c in Checked(s.pcs[t]) }

  /** The idle, lent and checked connections partition all_, which holds no connection twice. */
  ghost predicate Partition(s: State) {
    && Distinct(s.pool.all) && Distinct(s.pool.idle)
    && (forall c :: c in s.pool.all <==>
          Idle(s, c) || (exists t :: HeldBy(s, t, c)) || (exists t :: CheckedBy(s, t, c)))
    && (forall c, t :: HeldBy(s, t, c) ==> !Idle(s, c))
    && (forall c, t :: CheckedBy(s, t, c) ==> !Idle(s, c))
    && (forall c, t, u :: HeldBy(s, t, c) ==> !CheckedBy(s, u, c))
    && (forall t :: 0 <= t < |s.pcs| ==> Distinct(Checked(s.pcs[t])))
  }

  ghost predicate OneBorrower(s: State) {
    && (forall c, t, u :: HeldBy(s, t, c) && HeldBy(s, u, c) ==> t == u)
    && (forall c, t, u :: CheckedBy(s, t, c) && CheckedBy(s, u, c) ==> t == u)
  }

  ghost predicate NoneDeleted(s: State) {
    forall c :: c in s.deleted ==>
      !Idle(s, c) && (forall t :: !HeldBy(s, t, c)) && (forall t :: !CheckedBy(s, t, c))
  }

  lemma InvMeans(s: State)
    requires Inv(s)
    ensures Partition(s) && OneBorrower(s) && NoneDeleted(s)
  {
    forall t: nat, c ensures HeldBy(s, t, c) <==> t < |s.pcs| && c in s.place && s.place[c] == Lent(t) {
      assert t < |s.pcs| ==> HoldsOk(s, t);
    }
    forall t: nat, c ensures CheckedBy(s, t, c) <==> t < |s.pcs| && c in s.place && s.place[c] == UnderCheck(t) {
      assert t < |s.pcs| ==> CheckedOk(s, t);
    }
    forall c | c in s.pool.all && !Idle(s, c)
      ensures (exists t :: HeldBy(s, t, c)) || (exists t :: CheckedBy(s, t, c))
    {
      var t := s.place[c].t;
      assert HeldBy(s, t, c) || CheckedBy(s, t, c);
    }
    forall t | 0 <= t < |s.pcs| ensures Distinct(Checked(s.pcs[t])) {
      assert CheckedOk(s, t);
    }
  }

  /** Connections some thread has borrowed. */
  function Borrowed(holds: seq<set<Conn>>): set<Conn> { set t, c | 0 <= t < |holds| && c in holds[t] :: c }

  lemma BorrowedIsLent(s: State)
    requires Inv(s)
    ensures Borrowed(s.holds) == LentOut(s.place)
  {
    forall c ensures c in Borrowed(s.holds) <==> c in LentOut(s.place) {
      if c in Borrowed(s.holds) {
        var t :| 0 <= t < |s.holds| && c in s.holds[t];
        assert HoldsOk(s, t);
      }
      if c in LentOut(s.place) {
        assert HoldsOk(s, s.place[c].t);
      }
    }
  }

  /** Under every interleaving of acquire, creation, release and healthCheck. */
  lemma {:induction false} PoolSafe(s: State, poolSize: nat, acts: seq<Action>)
    requires Initial(s, poolSize) && poolSize <= s.pool.max && Legal(s, acts)
    ensures var z := Final(s, acts);
      && Partition(z) && OneBorrower(z) && NoneDeleted(z)
      && z.pool.active == |Borrowed(z.holds)|
      && |z.pool.all| + z.pool.creating <= z.pool.max
  {
    hide Partition, OneBorrower, NoneDeleted, Legal, Final, Initial;
    InitInv(s, poolSize);
    RunInv(s, acts);
    InvMeans(Final(s, acts));
    BorrowedIsLent(Final(s, acts));
    InvCounts(Final(s, acts));
  }

  lemma InvCounts(s: State)
    requires Inv(s)
    ensures s.pool.active == |LentOut(s.place)| && |s.pool.all| + s.pool.creating <= s.pool.max
  {
  }

  // ---- what runs are, and that nothing gets stuck ---------------------------------------

  /** A run goes on by one enabled step. */
  lemma {:induction false} RunOn(s: State, acts: seq<Action>, a: Action)
    ensures Legal(s, []) && Final(s, []) == s
    ensures Legal(s, acts + [a]) <==> Legal(s, acts) && Enabled(Final(s, acts), a)
    ensures Legal(s, acts + [a]) ==> Final(s, acts + [a]) == Apply(Final(s, acts), a)
    decreases |acts|
  {
    hide Enabled, Apply;
    if acts == [] {
      assert ([] + [a])[1..] == [] && ([] + [a])[0] == a;
    } else {
      assert (acts + [a])[1..] == acts[1..] + [a] && (acts + [a])[0] == acts[0];
      if Enabled(s, acts[0]) {
        RunOn(Apply(s, acts[0]), acts[1..], a);
      }
    }
  }

  /** In every reachable state each thread can go on: try for a connection or start a health
      check, come back from a creation either way, go on with a check either way, end it, and
      give back or hand on what it has borrowed. */
  lemma EveryThreadGoesOn(s: State, t: Tid)
    requires Inv(s) && t < |s.pcs|
    ensures s.pcs[t].Outside? ==> Enabled(s, Turning(t)) && Enabled(s, CheckStart(t))
    ensures s.pcs[t].Creating? ==> Enabled(s, Created(t, None)) && Apply(s, Created(t, None)).pcs[t] == Outside
    ensures s.pcs[t].Creating? ==>
      forall c :: c !in s.pool.all && c !in s.deleted ==>
        Enabled(s, Created(t, Some(c))) && Apply(s, Created(t, Some(c))).pcs[t] == Outside
    ensures s.pcs[t].Checking? && s.pcs[t].todo != [] ==> Enabled(s, CheckOk(t)) && Enabled(s, CheckDrop(t))
    ensures s.pcs[t].Checking? && s.pcs[t].todo == [] ==> Enabled(s, CheckEnd(t)) && Apply(s, CheckEnd(t)).pcs[t] == Outside
    ensures forall c :: c in s.holds[t] ==> Enabled(s, Release(t, c)) && c !in Apply(s, Release(t, c)).holds[t]
    ensures forall c: Conn, u: Tid :: c in s.holds[t] && u < |s.pcs| && u != t ==>
      && Enabled(s, Pass(t, u, c))
      && Apply(s, Pass(t, u, c)).holds == s.holds[t := s.holds[t] - {c}][u := s.holds[u] + {c}]
  {
  }

  /** The health check of thread t on the connections still to be looked at, in steps of its
      own; `alive` says which a ping or a reconnect brings back. */
  lemma {:induction false} CheckSteps(s: State, t: Tid, alive: Conn -> bool) returns (acts: seq<Action>)
    requires Inv(s) && t < |s.pcs| && s.pcs[t].Checking?
    ensures Legal(s, acts)
    ensures var z, todo := Final(s, acts), s.pcs[t].todo;
      && Inv(z) && z.pcs == s.pcs[t := Checking([], s.pcs[t].healthy + Filtered(todo, alive))] && z.holds == s.holds
      && z.pool == s.pool.(all := z.pool.all) && z.deleted == s.deleted + (set c | c in todo && !alive(c))
      && forall c :: c in z.pool.all <==> c in s.pool.all && (c in todo ==> alive(c))
    decreases |s.pcs[t].todo|
  {
    hide Inv, Enabled, Apply, Erased, Filtered;
    FilteredNone(alive);
    var todo, healthy := s.pcs[t].todo, s.pcs[t].healthy;
    if todo == [] {
      acts := [];
      assert healthy + Filtered([], alive) == healthy;
    } else {
      CheckNext(s, t);
      var a := if alive(todo[0]) then CheckOk(t) else CheckDrop(t);
      StepInv(s, a);
      var rest := CheckSteps(Apply(s, a), t, alive);
      acts := [a] + rest;
      assert acts[1..] == rest;
      FilteredCons(todo, alive);
      assert healthy + [todo[0]] + Filtered(todo[1..], alive) == healthy + ([todo[0]] + Filtered(todo[1..], alive));
      assert healthy + ([] + Filtered(todo[1..], alive)) == healthy + Filtered(todo[1..], alive);
    }
  }

  lemma CheckNext(s: State, t: Tid)
    requires Inv(s) && t < |s.pcs| && s.pcs[t].Checking? && s.pcs[t].todo != []
    ensures var todo, healthy := s.pcs[t].todo, s.pcs[t].healthy;
      && Enabled(s, CheckOk(t)) && Apply(s, CheckOk(t)) == s.(pcs := s.pcs[t := Checking(todo[1..], healthy + [todo[0]])])
      && Enabled(s, CheckDrop(t)) && Apply(s, CheckDrop(t)).pcs == s.pcs[t := Checking(todo[1..], healthy)]
      && Apply(s, CheckDrop(t)).holds == s.holds && Apply(s, CheckDrop(t)).deleted == s.deleted + {todo[0]}
      && Apply(s, CheckDrop(t)).pool == s.pool.(all := Erased(s.pool.all, todo[0]))
      && (forall c :: c in Erased(s.pool.all, todo[0]) <==> c in s.pool.all && c != todo[0])
      && (forall c :: c in todo[1..] <==> c in todo && c != todo[0])
  {
    assert CheckedOk(s, t);
    var todo, healthy := s.pcs[t].todo, s.pcs[t].healthy;
    assert todo[0] in todo + healthy;
    ErasedIs(s.pool.all, todo[0]);
    assert Distinct(todo) by {
      assert forall i :: 0 <= i < |todo| ==> (todo + healthy)[i] == todo[i];
    }
    DistinctTail(todo);
  }

  lemma FilteredNone(alive: Conn -> bool)
    ensures Filtered([], alive) == []
  {
  }

  lemma {:induction false} FilteredCons(list: seq<Conn>, alive: Conn -> bool)
    requires list != []
    ensures Filtered(list, alive) == (if alive(list[0]) then [list[0]] else []) + Filtered(list[1..], alive)
    decreases |list|
  {
    if |list| > 1 {
      var front := list[..|list| - 1];
      FilteredCons(front, alive);
      assert front[1..] == list[1..][..|list| - 2];
    } else {
      assert list[..0] == [] && list[1..] == [];
    }
  }

  /** A whole health check by steps does what the method does: the dead idle connections leave
      the pool and are deleted, the others queue up again in order, everything else stays. */
  lemma {:induction false} CheckAlone(s: State, t: Tid, alive: Conn -> bool) returns (acts: seq<Action>)
    requires Inv(s) && t < |s.pcs| && s.pcs[t] == Outside
    ensures Legal(s, acts)
    ensures var z := Final(s, acts);
      && Inv(z) && z.pcs == s.pcs && z.holds == s.holds && z.pool.idle == Filtered(s.pool.idle, alive)
      && z.pool.active == s.pool.active && z.pool.creating == s.pool.creating && z.pool.max == s.pool.max
      && z.deleted == s.deleted + (set c | c in s.pool.idle && !alive(c))
      && forall c :: c in z.pool.all <==> c in s.pool.all && (c in s.pool.idle ==> alive(c))
  {
    hide Inv;
    EveryThreadGoesOn(s, t);
    StepInv(s, CheckStart(t));
    var s1 := Apply(s, CheckStart(t));
    var mid := CheckSteps(s1, t, alive);
    var s2 := Final(s1, mid);
    EveryThreadGoesOn(s2, t);
    StepInv(s2, CheckEnd(t));
    RunOn(s1, mid, CheckEnd(t));
    acts := [CheckStart(t)] + (mid + [CheckEnd(t)]);
    assert acts[1..] == mid + [CheckEnd(t)];
    assert [] + Filtered(s.pool.idle, alive) == Filtered(s.pool.idle, alive);
    assert Apply(s2, CheckEnd(t)).pcs == s.pcs;
  }

  // ---- the bound ------------------------------------------------------------------------

  function Size(p: Pool): int { |p.all| + p.creating }

  function Larger(a: int, b: int): int { if a > b then a else b }

  lemma {:induction false} ErasedIsNoLonger(list: seq<Conn>, c: Conn)
    ensures |Erased(list, c)| <= |list|
  {
    if list != [] && list[0] != c {
      ErasedIsNoLonger(list[1..], c);
    }
  }

  /** No step grows a pool beyond max_pool_size, or at all when it is larger already. */
  lemma StepSize(s: State, a: Action)
    requires Enabled(s, a)
    ensures var q := Apply(s, a).pool; Size(q) <= Larger(Size(s.pool), s.pool.max) && q.max == s.pool.max
  {
    if a.CheckDrop? {
      ErasedIsNoLonger(s.pool.all, s.pcs[a.t].todo[0]);
    }
  }

  lemma {:induction false} RunSize(s: State, acts: seq<Action>)
    requires Legal(s, acts)
    ensures var q := Final(s, acts).pool; Size(q) <= Larger(Size(s.pool), s.pool.max) && q.max == s.pool.max
    decreases |acts|
  {
    hide Enabled, Apply;
    if acts != [] {
      StepSize(s, acts[0]);
      RunSize(Apply(s, acts[0]), acts[1..]);
    }
  }

  /** The bound holds in every run from a constructed pool exactly when the constructor made no
      more connections than max_pool_size allows, whatever pool_size is; in any case the pool
      never outgrows the larger of the two. */
  lemma {:induction false} BoundIff(s: State, poolSize: nat)
    requires Initial(s, poolSize)
    ensures (forall acts :: Legal(s, acts) ==> Size(Final(s, acts).pool) <= s.pool.max) <==> |s.pool.all| <= s.pool.max
    ensures forall acts :: Legal(s, acts) ==> Size(Final(s, acts).pool) <= Larger(|s.pool.all|, s.pool.max)
  {
    hide Size;
    forall acts | Legal(s, acts) ensures Size(Final(s, acts).pool) <= Larger(|s.pool.all|, s.pool.max) {
      RunSize(s, acts);
      InitialSize(s, poolSize);
    }
    assert Legal(s, []) && Final(s, []) == s;
    InitialSize(s, poolSize);
  }

  lemma InitialSize(s: State, poolSize: nat)
    requires Initial(s, poolSize)
    ensures Size(s.pool) == |s.pool.all|
  {
  }

  /** A constructed pool and threads that have not called it yet. */
  function Begun(p: Pool, threads: nat): State {
    State(p, seq(threads, _ => Outside), seq(threads, _ => {}), {}, map c | c in p.all :: InIdle)
  }

  // ---- the class ----------------------------------------------------------------------

  class MySQLConnectionPool {
    var idle: seq<Conn>
    var all: seq<Conn>
    var active: int
    var creating: int
    const max: int

    ghost function P(): Pool
      reads this
    {
      Pool(idle, all, active, creating, max)
    }

    /** `made` says which of the pool_size creations succeeded, and with which connection. */
    constructor (poolSize: nat, maxSize: int, made: seq<Option<Conn>>)
      requires |made| == poolSize
      requires forall i, j :: 0 <= i < j < poolSize && made[i].Some? ==> made[i] != made[j]
      ensures Distinct(all) && idle == all && |all| <= poolSize && active == 0 && creating == 0 && max == maxSize
      ensures forall c :: c in all <==> Some(c) in made
      ensures forall threads: nat :: Initial(Begun(P(), threads), poolSize)
    {
      idle, all, active, creating, max := [], [], 0, 0, maxSize;
      new;
      var i := 0;
      while i < poolSize
        invariant 0 <= i <= poolSize && idle == all && |all| <= i && Distinct(all)
        invariant forall c :: c in all <==> Some(c) in made[..i]
        invariant active == 0 && creating == 0
      {
        assert made[..i + 1] == made[..i] + [made[i]];
        if made[i].Some? {
          assert made[i] !in made[..i];
          DistinctSnoc(all, made[i].value);
          idle := idle + [made[i].value];
          all := all + [made[i].value];
        }
        i := i + 1;
      }
      assert made[..i] == made;
    }

    /** One turn of acquire's loop, under the lock. */
    method AcquireTurn() returns (turn: Turn)
      modifies this
      ensures turn == old(TurnOf(P())) && P() == old(AfterTurn(P()))
    {
      if idle != [] {
        turn := GotIdle(idle[0]);
        idle := idle[1..];
        active := active + 1;
        return;
      }
      var total := |all| + creating;
      if total < max {
        creating := creating + 1;
        return Grow;
      }
      turn := MustWait;
    }

    /** After createOne, under the lock again: a new connection goes to the back of the queue
        and the front of the queue is borrowed. */
    method AfterCreation(made: Option<Conn>) returns (turn: Turn)
      modifies this
      ensures P() == old(AfterCreate(P(), made))
      ensures made.Some? ==> turn == GotIdle((old(idle) + [made.value])[0])
      ensures made.None? ==> turn == MustWait
    {
      creating := creating - 1;
      if made.None? {
        return MustWait;
      }
      all := all + [made.value];
      idle := idle + [made.value];
      turn := AcquireTurn();
    }

    method ReleaseConn(c: Conn)
      modifies this
      ensures P() == old(Released(P(), c))
    {
      active := active - 1;
      idle := idle + [c];
    }

    /** healthCheck's first region: the queue is emptied front to back. */
    method TakeIdle() returns (toCheck: seq<Conn>)
      modifies this
      ensures toCheck == old(idle) && P() == old(Emptied(P()))
    {
      toCheck := [];
      while idle != []
        invariant toCheck + idle == old(idle)
        invariant all == old(all) && active == old(active) && creating == old(creating)
        decreases |idle|
      {
        toCheck := toCheck + [idle[0]];
        idle := idle[1..];
      }
    }

    method Drop(c: Conn)
      modifies this
      ensures P() == old(DroppedFrom(P(), c))
    {
      var i := 0;
      ErasedFrom(all, c, 0);
      while i < |all| && all[i] != c
        invariant 0 <= i <= |all| && P() == old(P())
        invariant Erased(all, c) == all[..i] + Erased(all[i..], c)
      {
        ErasedFrom(all, c, i);
        i := i + 1;
      }
      ErasedFrom(all, c, i);
      if i < |all| {
        all := all[..i] + all[i + 1..];
      } else {
        assert all[..i] + [] == all;
      }
    }

    method PutBackAll(healthy: seq<Conn>)
      modifies this
      ensures P() == old(PutBack(P(), healthy))
    {
      var i := 0;
      while i < |healthy|
        invariant 0 <= i <= |healthy| && idle == old(idle) + healthy[..i]
        invariant all == old(all) && active == old(active) && creating == old(creating)
      {
        idle := idle + [healthy[i]];
        i := i + 1;
      }
    }

    /** healthCheck when no other thread comes in between; `alive` says which connections a ping
        or a reconnect brings back.  The dead ones leave the pool, the others queue up again. */
    method HealthCheck(alive: Conn -> bool)
      requires Distinct(idle) && Distinct(all) && forall c :: c in idle ==> c in all
      modifies this
      ensures idle == Filtered(old(idle), alive) && active == old(active) && creating == old(creating)
      ensures Distinct(all) && forall c :: c in all <==> c in old(all) && (c in old(idle) ==> alive(c))
    {
      ghost var was := all;
      var toCheck := TakeIdle();
      var healthy: seq<Conn> := [];
      var i := 0;
      while i < |toCheck|
        invariant 0 <= i <= |toCheck| && healthy == Filtered(toCheck[..i], alive)
        invariant idle == [] && active == old(active) && creating == old(creating)
        invariant Distinct(all) && forall c :: c in all <==> c in was && (c in toCheck[..i] ==> alive(c))
      {
        var c := toCheck[i];
        FilteredSnoc(toCheck[..i], c, alive);
        assert toCheck[..i + 1] == toCheck[..i] + [c];
        if alive(c) {
          healthy := healthy + [c];
        } else {
          assert c in toCheck && c !in toCheck[..i];
          ErasedIs(all, c);
          Drop(c);
        }
        i := i + 1;
      }
      assert toCheck[..i] == toCheck;
      PutBackAll(healthy);
      assert [] + healthy == healthy;
    }
  }

  function Filtered(list: seq<Conn>, alive: Conn -> bool): seq<Conn> {
    if list == [] then []
    else
      var front, last := Filtered(list[..|list| - 1], alive), list[|list| - 1];
      if alive(last) then front + [last] else front
  }

  lemma FilteredSnoc(list: seq<Conn>, c: Conn, alive: Conn -> bool)
    ensures Filtered(list + [c], alive) == if alive(c) then Filtered(list, alive) + [c] else Filtered(list, alive)
  {
    assert (list + [c])[..|list|] == list;
  }

  lemma ErasedFrom(list: seq<Conn>, c: Conn, i: nat)
    requires i <= |list|
    ensures list[..0] + Erased(list[0..], c) == Erased(list, c)
    ensures i == |list| ==> Erased(list[i..], c) == []
    ensures i < |list| && list[i] == c ==> Erased(list[i..], c) == list[i + 1..]
    ensures i < |list| && list[i] != c ==> list[..i] + Erased(list[i..], c) == list[..i + 1] + Erased(list[i + 1..], c)
  {
    assert list[0..] == list;
    if i < |list| {
      assert list[i..][1..] == list[i + 1..];
      assert list[..i] + [list[i]] == list[..i + 1];
    }
  }
}
