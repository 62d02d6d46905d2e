// Conservation of retire records: what every step of RetireNode and Reclaim keeps, in every
// interleaving, whether or not MinActiveEpoch is read in one step.
module EpochRecords {
  import opened Wrappers
  import opened Chains
  import opened EpochReclaim

  // ---- invariant --------------------------------------------------------------------

  predicate IsRecord(r: Role) { r.Making? || r.Queued? || r.Taken? }

  /** Reclaim has freed the node of record r and is about to free r itself. */
  ghost predicate NodeGone(s: State, r: Off) {
    && r in s.role && s.role[r].Taken? && s.role[r].t < |s.writers|
    && s.writers[s.role[r].t].FreedNode? && s.writers[s.role[r].t].cur == r
  }

  ghost predicate RecordOk(s: State, r: Off) {
    && r in s.recNext && r in s.recNode && r in s.recEpoch
    && (NodeGone(s, r) || IsRole(s, s.recNode[r], Retired(s.recEpoch[r], Rec(r))))
  }

  ghost predicate Records(s: State) {
    && |s.own| == |s.writers| && 0 !in s.role
    && (forall r :: r in s.role && IsRecord(s.role[r]) ==> RecordOk(s, r))
    && (forall n :: n in s.role && s.role[n].Retired? ==> s.role[n].e <= s.global)
  }

  ghost predicate HandOk(s: State, w: Writer, t: Tid) {
    match w
    case Unlinked(n) => IsRole(s, n, Detached(t))
    case Bumped(n, e) => IsRole(s, n, Retired(e, Thread(t)))
    case Pushing(rec) => IsRole(s, rec, Making(t))
    case PushReady(rec, h) => IsRole(s, rec, Making(t)) && rec in s.recNext && s.recNext[rec] == h
    case _ => true
  }

  /** What a thread in the middle of RetireNode holds in its hand. */
  ghost predicate Hands(s: State) {
    forall t :: 0 <= t < |s.writers| ==> HandOk(s, s.writers[t], t)
  }

  ghost predicate SharedOk(s: State) {
    && (forall r :: r in s.shared <==> IsRole(s, r, Queued))
    && Distinct(s.shared)
    && ChainTo(s.recNext, s.retireHead, s.shared, 0)
  }

  ghost predicate KeptOk(nx: map<Off, Off>, keep: Off, tail: Off, kept: seq<Off>, end: Off) {
    && ChainTo(nx, keep, kept, end)
    && (kept != [] ==> tail == kept[|kept| - 1] && tail in nx)
  }

  ghost predicate PrivateChains(nx: map<Off, Off>, w: Writer, own: Lists) {
    match w
    case Walking(_, _, cur, keep, tail) =>
      ChainTo(nx, cur, own.todo, 0) && KeptOk(nx, keep, tail, own.kept, 0)
    case FreedNode(_, _, cur, nxt, keep, tail) =>
      own.todo != [] && cur == own.todo[0] && ChainTo(nx, nxt, own.todo[1..], 0) && KeptOk(nx, keep, tail, own.kept, 0)
    case Merging(keep, tail) =>
      own.todo == [] && own.kept != [] && tail in nx && KeptOk(nx, keep, tail, own.kept, nx[tail])
    case MergeReady(keep, tail, h) =>
      own.todo == [] && own.kept != [] && KeptOk(nx, keep, tail, own.kept, h)
    case _ => own == Lists([], [])
  }

  ghost predicate OwnOk(s: State, t: Tid)
    requires t < |s.own| && t < |s.writers|
  {
    && (forall r :: r in s.own[t].todo + s.own[t].kept <==> IsRole(s, r, Taken(t)))
    && Distinct(s.own[t].todo + s.own[t].kept)
    && PrivateChains(s.recNext, s.writers[t], s.own[t])
  }

  ghost predicate Owned(s: State)
    requires |s.own| == |s.writers|
  {
    && (forall r :: r in s.role && s.role[r].Taken? ==> s.role[r].t < |s.writers|)
    && (forall t :: 0 <= t < |s.own| ==> OwnOk(s, t))
  }

  ghost predicate RecInv(s: State) {
    Records(s) && Hands(s) && SharedOk(s) && Owned(s)
  }

  lemma InitRec(s: State)
    requires Initial(s)
    ensures RecInv(s)
  {
  }

  // ---- steps that touch no record ---------------------------------------------------

  predicate Quiet(w: Writer) {
    w.Resting? || w.Unlinked? || w.Bumped? || w.Pushing? || w.PushReady? || w.Scanning? || w.Scanned?
  }

  ghost predicate SameRecords(s: State, s': State) {
    && s'.recNext == s.recNext && s'.recNode == s.recNode && s'.recEpoch == s.recEpoch
    && s'.retireHead == s.retireHead && s'.shared == s.shared && s'.own == s.own
    && s'.global >= s.global && 0 !in s'.role
    && (forall r :: r in s.role && (IsRecord(s.role[r]) || s.role[r].Retired?) ==> IsRole(s', r, s.role[r]))
    && (forall r :: r in s'.role && IsRecord(s'.role[r]) ==> IsRole(s, r, s'.role[r]))
    && (forall r :: r in s'.role && s'.role[r].Retired? ==> s'.role[r].e <= s'.global)
  }

  /** Only the pc of thread t changes, and it was and stays outside Reclaim's list walk. */
  ghost predicate QuietMove(s: State, s': State, t: Tid) {
    && |s'.writers| == |s.writers|
    && (forall u :: 0 <= u < |s.writers| && u != t ==> s'.writers[u] == s.writers[u] && HandOk(s', s.writers[u], u))
    && (t < |s.writers| ==> Quiet(s.writers[t]) && Quiet(s'.writers[t]) && HandOk(s', s'.writers[t], t))
  }

  lemma {:induction false} QuietStep(s: State, s': State, t: Tid)
    requires RecInv(s) && SameRecords(s, s') && QuietMove(s, s', t)
    ensures RecInv(s')
  {
    assert Records(s') by {
      forall r | r in s'.role && IsRecord(s'.role[r]) ensures RecordOk(s', r) {
        assert RecordOk(s, r);
      }
    }
    forall u | 0 <= u < |s.own| ensures OwnOk(s', u) {
      assert OwnOk(s, u);
    }
  }

  lemma InsertRec(s: State, t: Tid, b: nat, n: Off)
    requires RecInv(s) && CanInsert(s, t, b, n)
    ensures RecInv(Insert(s, b, n))
  {
    hide SharedOk, Owned, OwnOk, RecordOk;
    var s' := Insert(s, b, n);
    assert forall u :: 0 <= u < |s.writers| ==> HandOk(s, s.writers[u], u);
    QuietStep(s, s', t);
  }

  lemma DetachRec(s: State, t: Tid, at: Place, n: Off)
    requires RecInv(s) && CanDetach(s, t, at, n)
    ensures RecInv(Detach(s, t, at, n))
  {
    hide SolePointer, SharedOk, Owned, OwnOk, RecordOk;
    assert forall u :: 0 <= u < |s.writers| ==> HandOk(s, s.writers[u], u);
    QuietStep(s, Detach(s, t, at, n), t);
  }

  lemma ReplaceRec(s: State, t: Tid, at: Place, n: Off, m: Off)
    requires RecInv(s) && CanReplace(s, t, at, n, m)
    ensures RecInv(Replace(s, t, at, n, m))
  {
    hide SolePointer, SharedOk, Owned, OwnOk, RecordOk;
    assert forall u :: 0 <= u < |s.writers| ==> HandOk(s, s.writers[u], u);
    QuietStep(s, Replace(s, t, at, n, m), t);
  }

  lemma TableStepRec(s: State, t: Tid, a: TableAct)
    requires RecInv(s) && TableEnabled(s, t, a)
    ensures RecInv(TableStep(s, t, a))
  {
    hide SolePointer, SharedOk, Owned, OwnOk, RecordOk;
    match a
    case AInsert(b, n) => InsertRec(s, t, b, n);
    case ARelink(at, q) =>
      assert forall u :: 0 <= u < |s.writers| ==> HandOk(s, s.writers[u], u);
      QuietStep(s, Store(s, at, q), t);
    case ADetach(at, n) => DetachRec(s, t, at, n);
    case AReplace(at, n, m) => ReplaceRec(s, t, at, n, m);
  }

  lemma ScanStepRec(s: State, t: Tid, a: ScanAct)
    requires RecInv(s) && ScanEnabled(s, t, a)
    ensures RecInv(ScanStep(s, t, a))
  {
    hide SharedOk, Owned, OwnOk, RecordOk;
    assert forall u :: 0 <= u < |s.writers| ==> HandOk(s, s.writers[u], u);
    match a
    case AScanStart => QuietStep(s, ScanStart(s, t), t);
    case AScanSlot => QuietStep(s, ScanSlot(s, t), t);
    case AScanEnd => QuietStep(s, ScanEnd(s, t), t);
    case AScanAll => QuietStep(s, ScanAll(s, t), t);
  }

  lemma ReadStepRec(s: State, i: Slot, a: ReadAct)
    requires RecInv(s) && ReadEnabled(s, i, a)
    ensures RecInv(ReadStep(s, i, a))
  {
    hide SharedOk, Owned, OwnOk, RecordOk;
    assert forall u :: 0 <= u < |s.writers| ==> HandOk(s, s.writers[u], u);
    QuietStep(s, ReadStep(s, i, a), |s.writers|);
  }

  lemma BumpRec(s: State, t: Tid)
    requires RecInv(s) && CanBump(s, t)
    ensures RecInv(Bump(s, t))
  {
    hide SharedOk, Owned, OwnOk, RecordOk;
    assert forall u :: 0 <= u < |s.writers| ==> HandOk(s, s.writers[u], u);
    QuietStep(s, Bump(s, t), t);
  }

  // ---- RetireNode -------------------------------------------------------------------

  lemma {:induction false} MakeRecRec(s: State, t: Tid, rec: Off)
    requires RecInv(s) && CanMakeRec(s, t, rec)
    ensures RecInv(MakeRec(s, t, rec))
  {
    var s' := MakeRec(s, t, rec);
    MakeRecRecords(s, t, rec);
    assert HandOk(s, s.writers[t], t);
    assert Hands(s') by {
      assert forall u :: 0 <= u < |s.writers| ==> HandOk(s, s.writers[u], u);
    }
    MakeRecShared(s, t, rec);
    forall u | 0 <= u < |s.own| ensures OwnOk(s', u) {
      OwnFrame(s, s', u);
    }
  }

  lemma MakeRecRecords(s: State, t: Tid, rec: Off)
    requires RecInv(s) && CanMakeRec(s, t, rec)
    ensures Records(MakeRec(s, t, rec))
  {
    var s' := MakeRec(s, t, rec);
    assert HandOk(s, s.writers[t], t);
    forall r | r in s'.role && IsRecord(s'.role[r]) ensures RecordOk(s', r) {
      if r != rec {
        assert RecordOk(s, r);
      }
    }
  }

  lemma MakeRecShared(s: State, t: Tid, rec: Off)
    requires RecInv(s) && CanMakeRec(s, t, rec)
    ensures SharedOk(MakeRec(s, t, rec))
  {
    assert HandOk(s, s.writers[t], t);
    ChainFrame(s.recNext, s.recNext[rec := 0], s.retireHead, s.shared, 0);
  }

  /** Writing the next pointer of somebody else's record leaves thread u's chains alone. */
  lemma {:induction false} OwnFrame(s: State, s': State, u: Tid)
    requires u < |s.own| == |s.writers| == |s'.writers| == |s'.own|
    requires OwnOk(s, u) && s'.own[u] == s.own[u]
    requires forall r :: IsRole(s', r, Taken(u)) <==> IsRole(s, r, Taken(u))
    requires s'.writers[u] == s.writers[u] || (Quiet(s.writers[u]) && Quiet(s'.writers[u]))
    requires forall r :: r in s.recNext && IsRole(s, r, Taken(u)) ==> r in s'.recNext && s'.recNext[r] == s.recNext[r]
    ensures OwnOk(s', u)
  {
    var o := s.own[u];
    var nx, nx' := s.recNext, s'.recNext;
    forall r | r in o.todo + o.kept && r in nx ensures r in nx' && nx'[r] == nx[r] {
      assert IsRole(s, r, Taken(u));
    }
    assert forall r :: r in o.todo ==> r in o.todo + o.kept;
    assert forall r :: r in o.kept ==> r in o.todo + o.kept;
    match s.writers[u]
    case Walking(_, _, cur, keep, tail) =>
      ChainFrame(nx, nx', cur, o.todo, 0);
      ChainFrame(nx, nx', keep, o.kept, 0);
    case FreedNode(_, _, cur, nxt, keep, tail) =>
      assert forall r :: r in o.todo[1..] ==> r in o.todo;
      ChainFrame(nx, nx', nxt, o.todo[1..], 0);
      ChainFrame(nx, nx', keep, o.kept, 0);
    case Merging(keep, tail) =>
      ChainFrame(nx, nx', keep, o.kept, nx[tail]);
    case MergeReady(keep, tail, h) =>
      ChainFrame(nx, nx', keep, o.kept, h);
    case _ =>
  }

  lemma {:induction false} PushLoadRec(s: State, t: Tid)
    requires RecInv(s) && CanPushLoad(s, t)
    ensures RecInv(PushLoad(s, t))
  {
    var s' := PushLoad(s, t);
    assert HandOk(s, s.writers[t], t);
    assert Records(s') by {
      forall r | r in s'.role && IsRecord(s'.role[r]) ensures RecordOk(s', r) {
        assert RecordOk(s, r);
      }
    }
    assert Hands(s') by {
      assert forall u :: 0 <= u < |s.writers| ==> HandOk(s, s.writers[u], u);
    }
    ChainFrame(s.recNext, s'.recNext, s.retireHead, s.shared, 0);
    forall u | 0 <= u < |s.own| ensures OwnOk(s', u) {
      OwnFrame(s, s', u);
    }
  }

  /** The compare-exchange is safe against reuse of offsets: the list only has to end where
      the record points, not to be the list that was seen when the head was loaded. */
  lemma {:induction false} PushCasRec(s: State, t: Tid, ok: bool)
    requires RecInv(s) && CanPushCas(s, t, ok)
    ensures RecInv(PushCas(s, t, ok))
  {
    var s' := PushCas(s, t, ok);
    assert HandOk(s, s.writers[t], t);
    assert Hands(s') by {
      assert forall u :: 0 <= u < |s.writers| ==> HandOk(s, s.writers[u], u);
    }
    assert Records(s') by {
      forall r | r in s'.role && IsRecord(s'.role[r]) ensures RecordOk(s', r) {
        assert RecordOk(s, r);
      }
    }
    if ok {
      assert s'.shared[1..] == s.shared;
      assert s'.shared[0] !in s.shared;
      assert forall i :: 0 <= i < |s.shared| ==> s.shared[i] in s.shared;
    }
    forall u | 0 <= u < |s.own| ensures OwnOk(s', u) {
      OwnFrame(s, s', u);
    }
  }

  // ---- Reclaim ----------------------------------------------------------------------

  lemma TakeRecords(s: State, t: Tid)
    requires RecInv(s) && CanTake(s, t)
    ensures Records(Take(s, t)) && Hands(Take(s, t)) && |s.own| == |s.writers| && 0 !in s.role
  {
    hide OwnOk, SharedOk;
    var s' := Take(s, t);
    forall r | r in s'.role && IsRecord(s'.role[r]) ensures RecordOk(s', r) {
      assert RecordOk(s, r);
    }
    assert forall u :: 0 <= u < |s.writers| ==> HandOk(s, s.writers[u], u);
  }

  lemma {:induction false} TakeRec(s: State, t: Tid)
    requires RecInv(s) && CanTake(s, t)
    ensures RecInv(Take(s, t))
  {
    hide Records, Hands;
    var s' := Take(s, t);
    assert OwnOk(s, t);
    assert s'.own[t].todo + s'.own[t].kept == s.shared;
    TakeRecords(s, t);
    forall u | 0 <= u < |s.own| ensures OwnOk(s', u) {
      if u != t {
        OwnFrame(s, s', u);
      }
    }
  }

  lemma {:induction false} FreeNodeRec(s: State, t: Tid)
    requires RecInv(s) && CanFreeNode(s, t)
    ensures RecInv(FreeNode(s, t))
  {
    var s' := FreeNode(s, t);
    var cur := s.writers[t].cur;
    CurrentIsTaken(s, t);
    assert RecordOk(s, cur);
    assert Records(s') by {
      forall r | r in s'.role && IsRecord(s'.role[r]) ensures RecordOk(s', r) {
        assert RecordOk(s, r);
      }
    }
    assert Hands(s') by {
      assert forall u :: 0 <= u < |s.writers| ==> HandOk(s, s.writers[u], u);
    }
    FreeNodeOwn(s, t);
    forall u | 0 <= u < |s.own| ensures OwnOk(s', u) {
      if u != t {
        OwnFrame(s, s', u);
      }
    }
  }

  lemma FreeNodeOwn(s: State, t: Tid)
    requires RecInv(s) && CanFreeNode(s, t)
    ensures OwnOk(FreeNode(s, t), t)
  {
    CurrentIsTaken(s, t);
    assert OwnOk(s, t);
    assert RecordOk(s, s.writers[t].cur);
  }

  /** The cursor of Reclaim's walk is the first record of the thread's remaining chain. */
  lemma CurrentIsTaken(s: State, t: Tid)
    requires RecInv(s) && t < |s.writers|
    requires (s.writers[t].Walking? && s.writers[t].cur != 0) || s.writers[t].FreedNode?
    ensures var o := s.own[t]; o.todo != [] && o.todo[0] == s.writers[t].cur
    ensures IsRole(s, s.writers[t].cur, Taken(t))
  {
    assert OwnOk(s, t);
    var o := s.own[t];
    assert o.todo != [];
    assert (o.todo + o.kept)[0] == o.todo[0];
  }

  lemma {:induction false} FreeRecRec(s: State, t: Tid)
    requires RecInv(s) && CanFreeRec(s, t)
    ensures RecInv(FreeRec(s, t))
  {
    var s' := FreeRec(s, t);
    var cur := s.writers[t].cur;
    CurrentIsTaken(s, t);
    assert Records(s') by {
      forall r | r in s'.role && IsRecord(s'.role[r]) ensures RecordOk(s', r) {
        assert RecordOk(s, r);
      }
    }
    assert Hands(s') by {
      assert forall u :: 0 <= u < |s.writers| ==> HandOk(s, s.writers[u], u);
    }
    assert OwnOk(s', t) by {
      var o := s.own[t];
      assert OwnOk(s, t);
      DropFirst(o.todo, o.kept);
    }
    forall u | 0 <= u < |s.own| ensures OwnOk(s', u) {
      if u != t {
        OwnFrame(s, s', u);
      }
    }
  }

  lemma DropFirst(todo: seq<Off>, kept: seq<Off>)
    requires todo != [] && Distinct(todo + kept)
    ensures Distinct(todo[1..] + kept)
    ensures forall r :: r in todo[1..] + kept <==> r in todo + kept && r != todo[0]
  {
    var all := todo + kept;
    assert all[1..] == todo[1..] + kept;
    assert all == [todo[0]] + all[1..];
    assert forall r :: r in all <==> r == all[0] || r in all[1..];
  }

  lemma Requeue(todo: seq<Off>, kept: seq<Off>)
    requires todo != [] && Distinct(todo + kept)
    ensures Distinct(todo[1..] + (kept + [todo[0]]))
    ensures forall r :: r in todo[1..] + (kept + [todo[0]]) <==> r in todo + kept
  {
    DropFirst(todo, kept);
    var rest := todo[1..] + kept;
    assert forall i :: 0 <= i < |rest| ==> rest[i] in rest;
    assert todo[1..] + (kept + [todo[0]]) == rest + [todo[0]];
  }

  /** Moving the current record to the end of the kept chain. */
  lemma {:induction false} KeepChains(nx: map<Off, Off>, cur: Off, todo: seq<Off>, keep: Off, tail: Off, kept: seq<Off>)
    requires todo != [] && Distinct(todo + kept) && 0 !in todo + kept
    requires ChainTo(nx, cur, todo, 0) && KeptOk(nx, keep, tail, kept, 0)
    ensures var cleared := nx[cur := 0];
      var nx' := if keep == 0 then cleared else cleared[tail := cur];
      && ChainTo(nx', nx[cur], todo[1..], 0)
      && KeptOk(nx', if keep == 0 then cur else keep, cur, kept + [cur], 0)
  {
    var cleared := nx[cur := 0];
    var all := todo + kept;
    assert all[0] == cur;
    forall r | r in todo[1..] ensures r != cur && (kept != [] ==> r != tail) {
      var i :| 0 <= i < |todo[1..]| && todo[1..][i] == r;
      assert all[i + 1] == r;
      assert kept != [] ==> all[|all| - 1] == kept[|kept| - 1];
    }
    forall r | r in kept ensures r != cur {
      var i :| 0 <= i < |kept| && kept[i] == r;
      assert all[|todo| + i] == r;
    }
    if kept == [] {
      assert keep == 0;
      ChainFrame(nx, cleared, nx[cur], todo[1..], 0);
      assert kept + [cur] == [cur];
      ChainOne(cleared, cur, 0);
    } else {
      assert kept[0] == keep;
      assert all[|todo|] == keep;
      assert keep in all;
      var nx' := cleared[tail := cur];
      ChainFrame(nx, nx', nx[cur], todo[1..], 0);
      ChainFrame(nx, cleared, keep, kept, 0);
      assert Distinct(kept) by {
        assert forall i :: 0 <= i < |kept| ==> kept[i] == all[|todo| + i];
      }
      ChainRedirect(cleared, keep, kept, 0, cur);
      assert tail in kept;
      ChainOne(nx', cur, 0);
      ChainConcat(nx', keep, kept, cur, [cur], 0);
    }
  }

  lemma KeepRecords(s: State, t: Tid)
    requires RecInv(s) && CanKeep(s, t) && 0 !in s.own[t].todo + s.own[t].kept
    requires s.own[t].todo[0] == s.writers[t].cur && IsRole(s, s.writers[t].cur, Taken(t))
    requires s.own[t].kept != [] ==> IsRole(s, s.writers[t].tail, Taken(t))
    requires s.own[t].kept == [] <==> s.writers[t].keep == 0
    ensures Records(Keep(s, t)) && Hands(Keep(s, t))
  {
    hide OwnOk, SharedOk, ChainTo, PrivateChains, KeptOk;
    var s' := Keep(s, t);
    forall r | r in s'.role && IsRecord(s'.role[r]) ensures RecordOk(s', r) {
      assert RecordOk(s, r);
    }
    assert forall u :: 0 <= u < |s.writers| ==> HandOk(s, s.writers[u], u);
  }

  lemma {:induction false} KeepRec(s: State, t: Tid)
    requires RecInv(s) && CanKeep(s, t)
    ensures RecInv(Keep(s, t))
  {
    var s' := Keep(s, t);
    var w, o := s.writers[t], s.own[t];
    CurrentIsTaken(s, t);
    assert OwnOk(s, t);
    Requeue(o.todo, o.kept);
    assert 0 !in o.todo + o.kept;
    KeepChains(s.recNext, w.cur, o.todo, w.keep, w.tail, o.kept);
    KeptTail(s, t);
    KeepRecords(s, t);
    assert SharedOk(s') by {
      ChainFrame(s.recNext, s'.recNext, s.retireHead, s.shared, 0);
    }
    assert OwnOk(s', t);
    forall u | 0 <= u < |s.own| ensures OwnOk(s', u) {
      if u != t {
        OwnFrame(s, s', u);
      }
    }
  }

  /** The tail pointer of a non-empty kept chain is one of the thread's own records. */
  lemma KeptTail(s: State, t: Tid)
    requires t < |s.own| == |s.writers| && OwnOk(s, t) && 0 !in s.role
    requires s.writers[t].Walking? || s.writers[t].Merging? || s.writers[t].MergeReady?
    ensures var w, o := s.writers[t], s.own[t];
      && (o.kept == [] <==> w.keep == 0)
      && (o.kept != [] ==> IsRole(s, w.tail, Taken(t)))
  {
    var o := s.own[t];
    var all := o.todo + o.kept;
    if o.kept != [] {
      assert all[|all| - 1] == o.kept[|o.kept| - 1];
      assert all[|o.todo|] == o.kept[0];
      assert o.kept[0] in all;
    }
  }

  lemma {:induction false} WalkEndRec(s: State, t: Tid)
    requires RecInv(s) && CanWalkEnd(s, t)
    ensures RecInv(WalkEnd(s, t))
  {
    var s' := WalkEnd(s, t);
    assert OwnOk(s, t);
    KeptTail(s, t);
    WalkEndOwn(s, t);
    assert Records(s') by {
      forall r | r in s'.role && IsRecord(s'.role[r]) ensures RecordOk(s', r) {
        assert RecordOk(s, r);
      }
    }
    assert Hands(s') by {
      assert forall u :: 0 <= u < |s.writers| ==> HandOk(s, s.writers[u], u);
    }
    forall u | 0 <= u < |s.own| ensures OwnOk(s', u) {
      if u != t {
        OwnFrame(s, s', u);
      }
    }
  }

  lemma WalkEndOwn(s: State, t: Tid)
    requires RecInv(s) && CanWalkEnd(s, t)
    ensures OwnOk(WalkEnd(s, t), t)
  {
    assert OwnOk(s, t);
    KeptTail(s, t);
    var o, w := s.own[t], s.writers[t];
    assert 0 !in o.todo + o.kept;
    assert forall r :: r in o.todo ==> r in o.todo + o.kept;
    if o.kept != [] {
      LastPointer(s.recNext, w.keep, o.kept, 0);
    }
  }

  lemma {:induction false} MergeLoadRec(s: State, t: Tid)
    requires RecInv(s) && CanMergeLoad(s, t)
    ensures RecInv(MergeLoad(s, t))
  {
    var s' := MergeLoad(s, t);
    assert OwnOk(s, t);
    KeptTail(s, t);
    MergeLoadOwn(s, t);
    assert Records(s') by {
      forall r | r in s'.role && IsRecord(s'.role[r]) ensures RecordOk(s', r) {
        assert RecordOk(s, r);
      }
    }
    assert Hands(s') by {
      assert forall u :: 0 <= u < |s.writers| ==> HandOk(s, s.writers[u], u);
    }
    assert SharedOk(s') by {
      assert OwnOk(s, t);
      ChainFrame(s.recNext, s'.recNext, s.retireHead, s.shared, 0);
    }
    forall u | 0 <= u < |s.own| ensures OwnOk(s', u) {
      if u != t {
        OwnFrame(s, s', u);
      }
    }
  }

  lemma MergeLoadOwn(s: State, t: Tid)
    requires RecInv(s) && CanMergeLoad(s, t)
    ensures OwnOk(MergeLoad(s, t), t)
  {
    assert OwnOk(s, t);
    var o, w := s.own[t], s.writers[t];
    assert o.todo + o.kept == o.kept;
    ChainRedirect(s.recNext, w.keep, o.kept, s.recNext[w.tail], s.retireHead);
  }

  lemma {:induction false} MergeCasRec(s: State, t: Tid, ok: bool)
    requires RecInv(s) && CanMergeCas(s, t, ok)
    ensures RecInv(MergeCas(s, t, ok))
  {
    var s' := MergeCas(s, t, ok);
    assert OwnOk(s, t);
    MergeCasRecords(s, t, ok);
    assert Hands(s') by {
      assert forall u :: 0 <= u < |s.writers| ==> HandOk(s, s.writers[u], u);
    }
    MergeCasChains(s, t, ok);
    forall u | 0 <= u < |s.own| ensures OwnOk(s', u) {
      if u != t {
        OwnFrame(s, s', u);
      }
    }
  }

  lemma MergeCasRecords(s: State, t: Tid, ok: bool)
    requires RecInv(s) && CanMergeCas(s, t, ok)
    ensures Records(MergeCas(s, t, ok))
  {
    var s' := MergeCas(s, t, ok);
    forall r | r in s'.role && IsRecord(s'.role[r]) ensures RecordOk(s', r) {
      assert RecordOk(s, r);
    }
  }

  lemma {:induction false} MergeCasChains(s: State, t: Tid, ok: bool)
    requires RecInv(s) && CanMergeCas(s, t, ok)
    ensures SharedOk(MergeCas(s, t, ok)) && OwnOk(MergeCas(s, t, ok), t)
  {
    assert OwnOk(s, t);
    if ok {
      MergeWon(s, t);
    } else {
      LastPointer(s.recNext, s.writers[t].keep, s.own[t].kept, s.writers[t].head);
    }
  }

  lemma {:induction false} MergeWon(s: State, t: Tid)
    requires t < |s.own| == |s.writers| && SharedOk(s) && OwnOk(s, t) && CanMergeCas(s, t, true)
    ensures SharedOk(MergeCas(s, t, true)) && OwnOk(MergeCas(s, t, true), t)
  {
    var o, w := s.own[t], s.writers[t];
    assert o.todo + o.kept == o.kept;
    ChainConcat(s.recNext, w.keep, o.kept, w.head, s.shared, 0);
    DistinctJoin(o.kept, s.shared);
  }

  // ---- every run --------------------------------------------------------------------

  lemma RetireStepRec(s: State, t: Tid, a: RetireAct)
    requires RecInv(s) && RetireEnabled(s, t, a)
    ensures RecInv(RetireStep(s, t, a))
  {
    match a
    case ABump => BumpRec(s, t);
    case AMakeRec(rec) => MakeRecRec(s, t, rec);
    case APushLoad => PushLoadRec(s, t);
    case APushCas(ok) => PushCasRec(s, t, ok);
  }

  lemma ReclaimStepRec(s: State, t: Tid, a: ReclaimAct)
    requires RecInv(s) && ReclaimEnabled(s, t, a)
    ensures RecInv(ReclaimStep(s, t, a))
  {
    match a
    case ATake => TakeRec(s, t);
    case AFreeNode => FreeNodeRec(s, t);
    case AFreeRec => FreeRecRec(s, t);
    case AKeep => KeepRec(s, t);
    case AWalkEnd => WalkEndRec(s, t);
    case AMergeLoad => MergeLoadRec(s, t);
    case AMergeCas(ok) => MergeCasRec(s, t, ok);
  }

  lemma StepRec(s: State, a: Action)
    requires RecInv(s) && Enabled(s, a)
    ensures RecInv(Apply(s, a))
  {
    match a
    case OnTable(t, x) => TableStepRec(s, t, x);
    case OnRetire(t, x) => RetireStepRec(s, t, x);
    case OnScan(t, x) => ScanStepRec(s, t, x);
    case OnReclaim(t, x) => ReclaimStepRec(s, t, x);
    case OnRead(i, x) => ReadStepRec(s, i, x);
  }

  /** The records on the private chains, with multiplicity. */
  ghost function PrivateRecords(own: seq<Lists>): multiset<Off> {
    if own == [] then multiset{}
    else var last := own[|own| - 1];
      PrivateRecords(own[..|own| - 1]) + multiset(last.todo + last.kept)
  }

  /** Every occurrence of a record on the shared list or on any private chain. */
  ghost function AllRecords(s: State): multiset<Off> { multiset(s.shared) + PrivateRecords(s.own) }

  predicate InPlay(s: State, r: Off) { r in s.role && (s.role[r].Queued? || s.role[r].Taken?) }

  lemma {:induction false} DistinctCount(list: seq<Off>, r: Off)
    requires Distinct(list)
    ensures multiset(list)[r] == if r in list then 1 else 0
    decreases |list|
  {
    if list != [] {
      var k := |list| - 1;
      assert list == list[..k] + [list[k]];
      DistinctCount(list[..k], r);
      assert forall i :: 0 <= i < k ==> list[i] != list[k];
      assert r in list <==> r in list[..k] || r == list[k];
    }
  }

  lemma {:induction false} PrivateCount(s: State, k: nat, r: Off)
    requires RecInv(s) && k <= |s.own|
    ensures PrivateRecords(s.own[..k])[r] == if r in s.role && s.role[r].Taken? && s.role[r].t < k then 1 else 0
    decreases k
  {
    if k > 0 {
      PrivateCount(s, k - 1, r);
      assert s.own[..k][..k - 1] == s.own[..k - 1];
      assert OwnOk(s, k - 1);
      DistinctCount(s.own[k - 1].todo + s.own[k - 1].kept, r);
    }
  }

  /** Each record is on exactly one list, once. */
  lemma {:induction false} RecordOnce(s: State, r: Off)
    requires RecInv(s)
    ensures AllRecords(s)[r] == if InPlay(s, r) then 1 else 0
  {
    PrivateCount(s, |s.own|, r);
    assert s.own[..|s.own|] == s.own;
    DistinctCount(s.shared, r);
  }

  /** The records pushed and not yet freed along a run, starting from `live`. */
  ghost function Outstanding(s: State, acts: seq<Action>, live: multiset<Off>): multiset<Off>
    requires Legal(s, acts)
    decreases |acts|
  {
    if acts == [] then live
    else Outstanding(Apply(s, acts[0]), acts[1..], Recount(s, acts[0], live))
  }

  ghost function Recount(s: State, a: Action, live: multiset<Off>): multiset<Off>
    requires Enabled(s, a)
  {
    if a.OnRetire? && a.retire == APushCas(true) then live + multiset{s.writers[a.t].rec}
    else if a.OnReclaim? && a.reclaim == AFreeRec then live - multiset{s.writers[a.t].cur}
    else live
  }

  lemma {:induction false} StepConserves(s: State, a: Action)
    requires RecInv(s) && Enabled(s, a)
    ensures AllRecords(Apply(s, a)) == Recount(s, a, AllRecords(s))
  {
    StepRec(s, a);
    forall r ensures AllRecords(Apply(s, a))[r] == Recount(s, a, AllRecords(s))[r] {
      RecordMoves(s, a, r);
    }
  }

  lemma RecordMoves(s: State, a: Action, r: Off)
    requires RecInv(s) && Enabled(s, a) && RecInv(Apply(s, a))
    ensures AllRecords(Apply(s, a))[r] == Recount(s, a, AllRecords(s))[r]
  {
    hide RecInv, InPlay, AllRecords, TableStep, RetireStep, ScanStep, ReclaimStep, ReadStep, TableEnabled, ScanEnabled, ReadEnabled;
    RecordOnce(s, r);
    RecordOnce(Apply(s, a), r);
    match a
    case OnTable(t, x) => TableMoves(s, t, x, r);
    case OnRetire(t, x) => RetireMoves(s, t, x, r);
    case OnScan(t, x) => ScanMoves(s, t, x, r);
    case OnReclaim(t, x) => ReclaimMoves(s, t, x, r);
    case OnRead(i, x) => ReadMoves(s, i, x, r);
  }

  lemma RetireMoves(s: State, t: Tid, a: RetireAct, r: Off)
    requires RecInv(s) && RetireEnabled(s, t, a)
    ensures InPlay(RetireStep(s, t, a), r) <==> InPlay(s, r) || (a == APushCas(true) && s.writers[t].rec == r)
    ensures a == APushCas(true) ==> !InPlay(s, s.writers[t].rec)
  {
    assert HandOk(s, s.writers[t], t);
  }

  lemma ScanMoves(s: State, t: Tid, a: ScanAct, r: Off)
    requires ScanEnabled(s, t, a)
    ensures InPlay(ScanStep(s, t, a), r) <==> InPlay(s, r)
  {
  }

  lemma ReadMoves(s: State, i: Slot, a: ReadAct, r: Off)
    requires ReadEnabled(s, i, a)
    ensures InPlay(ReadStep(s, i, a), r) <==> InPlay(s, r)
  {
  }

  lemma TableMoves(s: State, t: Tid, a: TableAct, r: Off)
    requires RecInv(s) && TableEnabled(s, t, a)
    ensures InPlay(TableStep(s, t, a), r) <==> InPlay(s, r)
  {
  }

  lemma ReclaimMoves(s: State, t: Tid, a: ReclaimAct, r: Off)
    requires RecInv(s) && ReclaimEnabled(s, t, a)
    ensures InPlay(ReclaimStep(s, t, a), r) <==>
      if a == AFreeRec && s.writers[t].cur == r then false else InPlay(s, r)
    ensures a == AFreeRec ==> InPlay(s, s.writers[t].cur)
  {
    if a == AFreeRec {
      CurrentIsTaken(s, t);
    } else if a == AFreeNode {
      CurrentIsTaken(s, t);
      assert RecordOk(s, s.writers[t].cur);
    }
  }

  /** Conservation over whole runs: at every moment the lists hold exactly the records pushed
      and not yet freed, each once; a record that is freed was outstanding. */
  lemma {:induction false} RecordsConserved(s: State, acts: seq<Action>)
    requires RecInv(s) && Legal(s, acts)
    ensures RecInv(Final(s, acts))
    ensures AllRecords(Final(s, acts)) == Outstanding(s, acts, AllRecords(s))
    ensures forall r :: AllRecords(Final(s, acts))[r] <= 1
    decreases |acts|
  {
    if acts != [] {
      StepRec(s, acts[0]);
      StepConserves(s, acts[0]);
      RecordsConserved(Apply(s, acts[0]), acts[1..]);
    } else {
      forall r ensures AllRecords(s)[r] <= 1 {
        RecordOnce(s, r);
      }
    }
  }

  /** No record and no node is freed twice: what Reclaim frees is allocated at that moment,
      the record on the thread's own chain and the node retired under that very record. */
  lemma NothingFreedTwice(s: State, t: Tid)
    requires RecInv(s)
    ensures CanFreeRec(s, t) ==> AllRecords(s)[s.writers[t].cur] == 1
    ensures CanFreeNode(s, t) ==>
      var cur := s.writers[t].cur;
      IsRole(s, s.recNode[cur], Retired(s.recEpoch[cur], Rec(cur)))
  {
    if CanFreeRec(s, t) {
      CurrentIsTaken(s, t);
      RecordOnce(s, s.writers[t].cur);
    }
    if CanFreeNode(s, t) {
      CurrentIsTaken(s, t);
      assert RecordOk(s, s.writers[t].cur);
    }
  }
}
