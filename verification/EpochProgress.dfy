// What Reclaim achieves: MinActiveEpoch's answer is the epoch it is meant to be, and a Reclaim
// that no other thread disturbs frees every retired node that answer lets go and keeps the
// rest.
module EpochProgress {
  import opened Wrappers
  import opened Chains
  import opened EpochReclaim
  import opened EpochRecords
  import opened EpochSafety
  import opened EpochScanRace
  import HashTable

  // ---- MinActiveEpoch ---------------------------------------------------------------

  /** The answer is at most every published epoch, and it is one of them, or the global epoch if
      there is none. */
  lemma {:induction false} ScanAnswer(s: State, t: Tid)
    requires ReaderInv(s) && CanScanStart(s, t)
    ensures ScanAll(s, t).writers[t].Scanned?
    ensures var minE := ScanAll(s, t).writers[t].minE;
      && (forall i :: 0 <= i < |s.readers| && s.readers[i].Reading? ==> minE <= s.readers[i].e)
      && ((exists i :: 0 <= i < |s.readers| && s.readers[i].Reading? && s.readers[i].e == minE)
          || (minE == s.global && forall i :: 0 <= i < |s.readers| ==> !s.readers[i].Reading?))
  {
    forall i | 0 <= i < |s.readers| && s.readers[i].Reading?
      ensures LeastOf(s.readers).Some? && LeastOf(s.readers).value <= s.readers[i].e
    {
      assert ReaderOk(s, s.readers[i]);
      LeastIsLower(s.readers, i);
    }
    if LeastOf(s.readers).Some? {
      var i := LeastIsSome(s.readers);
      LeastIsPositive(s.readers);
      assert s.readers[i].Reading?;
    }
  }

  lemma {:induction false} LeastIsPositive(readers: seq<Reader>)
    requires LeastOf(readers).Some?
    ensures LeastOf(readers).value > 0
    decreases |readers|
  {
    var front, last := readers[..|readers| - 1], readers[|readers| - 1];
    if LeastOf(front).Some? {
      LeastIsPositive(front);
    }
  }

  /** Thread t has looked at the first k slots. */
  function Looked(s: State, t: Tid, k: nat): State
    requires t < |s.writers| && k <= |s.readers|
  {
    s.(writers := s.writers[t := Scanning(k, LeastOf(s.readers[..k]), s.global)])
  }

  function ScanActs(t: Tid, k: nat): seq<Action> {
    if k == 0 then [OnScan(t, AScanStart)] else ScanActs(t, k - 1) + [OnScan(t, AScanSlot)]
  }

  lemma {:induction false} LooksAt(s: State, t: Tid, k: nat)
    requires CanScanStart(s, t) && k <= |s.readers|
    ensures Steps(s, ScanActs(t, k), Looked(s, t, k))
    decreases k
  {
    hide Steps, LeastOf;
    NoSteps(s);
    if k == 0 {
      LeastOfSome(s.readers, 0);
      Then(s, [], s, OnScan(t, AScanStart), Looked(s, t, 0));
      assert [] + [OnScan(t, AScanStart)] == [OnScan(t, AScanStart)];
    } else {
      LooksAt(s, t, k - 1);
      LeastOfSome(s.readers, k);
      Then(s, ScanActs(t, k - 1), Looked(s, t, k - 1), OnScan(t, AScanSlot), Looked(s, t, k));
    }
  }

  lemma LeastOfSome(readers: seq<Reader>, k: nat)
    requires k <= |readers|
    ensures k == 0 ==> LeastOf(readers[..k]) == None
    ensures k > 0 ==> LeastOf(readers[..k]) == Look(LeastOf(readers[..k - 1]), readers[k - 1])
    ensures readers[..|readers|] == readers
  {
    if k > 0 {
      assert readers[..k][..k - 1] == readers[..k - 1];
    }
  }

  /** Undisturbed, the loop over the slots gives what the one-step reading gives. */
  lemma {:induction false} ScanAlone(s: State, t: Tid)
    requires CanScanStart(s, t)
    ensures Steps(s, ScanActs(t, |s.readers|) + [OnScan(t, AScanEnd)], ScanAll(s, t))
  {
    hide Steps, LeastOf;
    LooksAt(s, t, |s.readers|);
    LeastOfSome(s.readers, |s.readers|);
    Then(s, ScanActs(t, |s.readers|), Looked(s, t, |s.readers|), OnScan(t, AScanEnd), ScanAll(s, t));
  }

  // ---- the walk, undisturbed --------------------------------------------------------

  /** The records of a list that the code's test does not let go, in order. */
  function Young(epoch: map<Off, nat>, list: seq<Off>, minE: nat): seq<Off> {
    if list == [] then []
    else if list[0] in epoch && epoch[list[0]] + 1 < minE then Young(epoch, list[1..], minE)
    else [list[0]] + Young(epoch, list[1..], minE)
  }

  /** The records it lets go, with their nodes. */
  function Doomed(epoch: map<Off, nat>, node: map<Off, Off>, list: seq<Off>, minE: nat): set<Off> {
    if list == [] then {}
    else if list[0] in epoch && list[0] in node && epoch[list[0]] + 1 < minE then
      {list[0], node[list[0]]} + Doomed(epoch, node, list[1..], minE)
    else Doomed(epoch, node, list[1..], minE)
  }

  lemma {:induction false} YoungIs(epoch: map<Off, nat>, list: seq<Off>, minE: nat, r: Off)
    requires forall x :: x in list ==> x in epoch
    ensures r in Young(epoch, list, minE) <==> r in list && epoch[r] + 1 >= minE
    decreases |list|
  {
    if list != [] {
      assert list[0] in list && forall x :: x in list[1..] ==> x in list;
      YoungIs(epoch, list[1..], minE, r);
      assert r in list <==> r == list[0] || r in list[1..];
    }
  }

  lemma {:induction false} DoomedIs(epoch: map<Off, nat>, node: map<Off, Off>, list: seq<Off>, minE: nat, x: Off)
    requires forall r :: r in list ==> r in epoch && r in node
    ensures x in Doomed(epoch, node, list, minE) <==>
      exists r :: r in list && epoch[r] + 1 < minE && (x == r || x == node[r])
    decreases |list|
  {
    if list != [] {
      assert list[0] in list && forall r :: r in list[1..] ==> r in list;
      DoomedIs(epoch, node, list[1..], minE, x);
      assert forall r :: r in list <==> r == list[0] || r in list[1..];
    }
  }

  predicate Working(w: Writer) { w.Walking? || w.FreedNode? || w.Merging? || w.MergeReady? }

  function MinOf(w: Writer): nat {
    match w
    case Walking(minE, _, _, _, _) => minE
    case FreedNode(minE, _, _, _, _, _) => minE
    case _ => 0
  }

  /** What the shared list will be when thread t, undisturbed, is done. */
  function ListAfter(s: State, t: Tid): seq<Off>
    requires t < |s.writers| && t < |s.own|
  {
    var w, o := s.writers[t], s.own[t];
    match w
    case Walking(minE, _, _, _, _) => o.kept + Young(s.recEpoch, o.todo, minE) + s.shared
    case FreedNode(minE, _, _, _, _, _) =>
      o.kept + Young(s.recEpoch, if o.todo == [] then [] else o.todo[1..], minE) + s.shared
    case Merging(_, _) => o.kept + s.shared
    case MergeReady(_, _, _) => o.kept + s.shared
    case _ => s.shared
  }

  /** And which offsets will be allocated. */
  function BlocksAfter(s: State, t: Tid): set<Off>
    requires t < |s.writers| && t < |s.own|
  {
    var w, o := s.writers[t], s.own[t];
    match w
    case Walking(minE, _, _, _, _) => s.role.Keys - Doomed(s.recEpoch, s.recNode, o.todo, minE)
    case FreedNode(minE, _, cur, _, _, _) =>
      s.role.Keys - {cur} - Doomed(s.recEpoch, s.recNode, if o.todo == [] then [] else o.todo[1..], minE)
    case _ => s.role.Keys
  }

  /** What no step of Reclaim touches. */
  ghost predicate SameOutside(s: State, s': State, t: Tid) {
    && s'.global == s.global && s'.heads == s.heads && s'.next == s.next && s'.readers == s.readers
    && s'.recEpoch == s.recEpoch && s'.recNode == s.recNode
    && |s'.writers| == |s.writers| && |s'.own| == |s.own|
    && forall u :: 0 <= u < |s.writers| && u != t ==> s'.writers[u] == s.writers[u]
  }

  lemma WalkAt(s: State, t: Tid)
    requires RecInv(s) && t < |s.writers| && s.writers[t].Walking?
    ensures t < |s.own|
    ensures var w, o := s.writers[t], s.own[t];
      && (w.cur == 0 <==> o.todo == []) && (o.todo != [] ==> o.todo[0] == w.cur && Walks(s, t))
      && (w.keep == 0 <==> o.kept == [])
  {
    assert OwnOk(s, t);
    var w, o := s.writers[t], s.own[t];
    if o.todo != [] {
      assert o.todo[0] in o.todo + o.kept;
      assert IsRole(s, o.todo[0], Taken(t)) && RecordOk(s, o.todo[0]);
    }
    if o.kept != [] {
      assert o.kept[0] in o.todo + o.kept;
      assert IsRole(s, o.kept[0], Taken(t));
    }
  }

  lemma FreedAt(s: State, t: Tid)
    requires RecInv(s) && t < |s.writers| && s.writers[t].FreedNode?
    ensures t < |s.own| && s.own[t].todo != [] && s.own[t].todo[0] == s.writers[t].cur
  {
    assert OwnOk(s, t);
  }

  /** What a step of the walk keeps. */
  ghost predicate Onward(s: State, s': State, t: Tid)
    requires t < |s.writers| && t < |s.own|
  {
    && SameOutside(s, s', t) && (Working(s'.writers[t]) || s'.writers[t].Resting?)
    && ListAfter(s', t) == ListAfter(s, t) && BlocksAfter(s', t) == BlocksAfter(s, t)
  }

  lemma FreeNodeOnward(s: State, t: Tid)
    requires RecInv(s) && CanFreeNode(s, t) && t < |s.own|
    ensures Onward(s, FreeNode(s, t), t)
  {
    hide RecInv, Young;
    WalkAt(s, t);
    YoungStep(s.recEpoch, s.own[t].todo, s.writers[t].minE);
  }

  lemma YoungStep(epoch: map<Off, nat>, list: seq<Off>, minE: nat)
    requires list != [] && list[0] in epoch
    ensures Young(epoch, list, minE) ==
      (if epoch[list[0]] + 1 < minE then [] else [list[0]]) + Young(epoch, list[1..], minE)
  {
    assert [] + Young(epoch, list[1..], minE) == Young(epoch, list[1..], minE);
  }

  lemma FreeRecOnward(s: State, t: Tid)
    requires RecInv(s) && CanFreeRec(s, t)
    ensures Onward(s, FreeRec(s, t), t)
  {
    hide RecInv, Young, Doomed;
    FreedAt(s, t);
  }

  lemma KeepOnward(s: State, t: Tid)
    requires RecInv(s) && CanKeep(s, t) && t < |s.own|
    ensures Onward(s, Keep(s, t), t)
  {
    hide RecInv;
    WalkAt(s, t);
    var o, minE := s.own[t], s.writers[t].minE;
    assert o.kept + ([o.todo[0]] + Young(s.recEpoch, o.todo[1..], minE)) ==
      o.kept + [o.todo[0]] + Young(s.recEpoch, o.todo[1..], minE);
  }

  lemma WalkEndOnward(s: State, t: Tid)
    requires RecInv(s) && CanWalkEnd(s, t) && t < |s.own|
    ensures Onward(s, WalkEnd(s, t), t)
  {
    hide RecInv;
    WalkAt(s, t);
  }

  lemma MergeLoadOnward(s: State, t: Tid)
    requires CanMergeLoad(s, t) && t < |s.own|
    ensures Onward(s, MergeLoad(s, t), t)
  {
    hide Young, Doomed;
  }

  lemma MergeCasOnward(s: State, t: Tid, ok: bool)
    requires CanMergeCas(s, t, ok)
    ensures Onward(s, MergeCas(s, t, ok), t)
  {
    hide Young, Doomed;
  }

  lemma WalkStep(s: State, t: Tid, a: ReclaimAct)
    requires RecInv(s) && ReclaimEnabled(s, t, a) && Working(s.writers[t]) && t < |s.own|
    ensures Onward(s, ReclaimStep(s, t, a), t)
  {
    hide RecInv, Onward;
    match a
    case ATake =>
    case AFreeNode => FreeNodeOnward(s, t);
    case AFreeRec => FreeRecOnward(s, t);
    case AKeep => KeepOnward(s, t);
    case AWalkEnd => WalkEndOnward(s, t);
    case AMergeLoad => MergeLoadOnward(s, t);
    case AMergeCas(ok) => MergeCasOnward(s, t, ok);
  }

  predicate Undisturbed(acts: seq<Action>, t: Tid) {
    forall k :: 0 <= k < |acts| ==> acts[k].OnReclaim? && acts[k].t == t
  }

  predicate Rests(s: State, t: Tid) { t < |s.writers| && s.writers[t] == Resting }

  /** Whatever steps thread t takes until it rests again. */
  lemma {:induction false} WalkRun(s: State, acts: seq<Action>, t: Tid)
    requires RecInv(s) && Legal(s, acts) && Undisturbed(acts, t) && t < |s.writers| && t < |s.own|
    requires Working(s.writers[t]) || s.writers[t].Resting?
    requires Rests(Final(s, acts), t)
    ensures var z := Final(s, acts);
      RecInv(z) && SameOutside(s, z, t) && z.shared == ListAfter(s, t) && z.role.Keys == BlocksAfter(s, t)
    decreases |acts|
  {
    hide RecInv, Young, Doomed;
    if acts != [] {
      assert acts[0].OnReclaim? && acts[0].t == t;
      var a := acts[0].reclaim;
      assert Working(s.writers[t]);
      WalkStep(s, t, a);
      StepRec(s, acts[0]);
      WalkRun(Apply(s, acts[0]), acts[1..], t);
    }
  }

  /** Such a run exists: undisturbed, the walk ends. */
  lemma {:induction false} WalkEnds(s: State, t: Tid) returns (acts: seq<Action>)
    requires RecInv(s) && t < |s.writers| && t < |s.own| && s.writers[t].Walking?
    ensures Legal(s, acts) && Undisturbed(acts, t) && Rests(Final(s, acts), t)
    decreases |s.own[t].todo|
  {
    hide RecInv;
    WalkAt(s, t);
    if s.own[t].todo == [] {
      acts := EndActs(s, t);
    } else if CanFreeNode(s, t) {
      var a, b := OnReclaim(t, AFreeNode), OnReclaim(t, AFreeRec);
      var s1 := FreeNode(s, t);
      StepRec(s, a);
      FreedAt(s1, t);
      StepRec(s1, b);
      var rest := WalkEnds(FreeRec(s1, t), t);
      Prepend(s1, b, rest);
      Prepend(s, a, [b] + rest);
      acts := [a] + ([b] + rest);
    } else {
      var a := OnReclaim(t, AKeep);
      StepRec(s, a);
      var rest := WalkEnds(Keep(s, t), t);
      Prepend(s, a, rest);
      acts := [a] + rest;
    }
  }

  lemma EndActs(s: State, t: Tid) returns (acts: seq<Action>)
    requires CanWalkEnd(s, t) && t < |s.own|
    ensures Legal(s, acts) && Undisturbed(acts, t) && Rests(Final(s, acts), t)
  {
    var a, b, c := OnReclaim(t, AWalkEnd), OnReclaim(t, AMergeLoad), OnReclaim(t, AMergeCas(true));
    var s1 := WalkEnd(s, t);
    NoActs(s1);
    Prepend(s, a, []);
    acts := [a] + [];
    if s1.writers[t].Merging? {
      var s2 := MergeLoad(s1, t);
      NoActs(MergeCas(s2, t, true));
      Prepend(s2, c, []);
      Prepend(s1, b, [c] + []);
      Prepend(s, a, [b] + ([c] + []));
      acts := [a] + ([b] + ([c] + []));
    }
  }

  lemma NoActs(s: State)
    ensures Legal(s, []) && Final(s, []) == s
  {
  }

  lemma Prepend(s: State, a: Action, rest: seq<Action>)
    requires Enabled(s, a) && Legal(Apply(s, a), rest)
    ensures Legal(s, [a] + rest) && Final(s, [a] + rest) == Final(Apply(s, a), rest)
  {
    assert ([a] + rest)[1..] == rest;
  }

  // ---- Reclaim ----------------------------------------------------------------------

  /** A Reclaim from its scan, read in one step, to its end, no other thread moving. */
  predicate WholeReclaim(s: State, acts: seq<Action>, t: Tid) {
    && |acts| >= 2 && Legal(s, acts) && acts[0] == OnScan(t, AScanAll) && Undisturbed(acts[1..], t)
    && Rests(Final(s, acts), t)
  }

  lemma {:induction false} ReclaimEnds(s: State, t: Tid) returns (acts: seq<Action>)
    requires RecInv(s) && Rests(s, t)
    ensures WholeReclaim(s, acts, t)
  {
    hide RecInv;
    OwnsAll(s);
    var a, b := OnScan(t, AScanAll), OnReclaim(t, ATake);
    var s1 := ScanAll(s, t);
    StepRec(s, a);
    StepRec(s1, b);
    var rest := WalkEnds(Take(s1, t), t);
    Prepend(s1, b, rest);
    Prepend(s, a, [b] + rest);
    acts := [a] + ([b] + rest);
    assert acts[1..] == [b] + rest;
  }

  lemma OwnsAll(s: State)
    requires RecInv(s)
    ensures |s.own| == |s.writers|
    ensures forall r :: r in s.shared ==> r in s.recEpoch && r in s.recNode
  {
    forall r | r in s.shared ensures r in s.recEpoch && r in s.recNode {
      assert IsRole(s, r, Queued) && RecordOk(s, r);
    }
  }

  /** Every such Reclaim frees exactly the records, and their nodes, that were retired more than
      one epoch before its scan's answer, and leaves exactly the others on retire_head's list,
      in their order. */
  lemma {:induction false} ReclaimFreesIff(s: State, acts: seq<Action>, t: Tid)
    requires RecInv(s) && ReaderInv(s) && Rests(s, t) && WholeReclaim(s, acts, t)
    ensures var z, minE := Final(s, acts), ScanAll(s, t).writers[t].minE;
      && RecInv(z) && SameOutside(s, z, t) && z.shared == Young(s.recEpoch, s.shared, minE)
      && (forall r :: r in s.shared ==> r in s.recEpoch && r in s.recNode)
      && (forall r :: r in z.shared <==> r in s.shared && s.recEpoch[r] + 1 >= minE)
      && (forall x :: x in z.role <==>
            (x in s.role && !exists r :: r in s.shared && s.recEpoch[r] + 1 < minE && (x == r || x == s.recNode[r])))
  {
    hide RecInv, ReaderInv;
    OwnsAll(s);
    var minE := ScanAll(s, t).writers[t].minE;
    var s1 := ScanAll(s, t);
    var s2, z := TakenState(s, acts, t);
    WalkRun(s2, acts[2..], t);
    assert [] + Young(s.recEpoch, s.shared, minE) + [] == Young(s.recEpoch, s.shared, minE);
    forall r ensures r in z.shared <==> r in s.shared && s.recEpoch[r] + 1 >= minE {
      YoungIs(s.recEpoch, s.shared, minE, r);
    }
    forall x
      ensures x in z.role <==>
        (x in s.role && !exists r :: r in s.shared && s.recEpoch[r] + 1 < minE && (x == r || x == s.recNode[r]))
    {
      DoomedIs(s.recEpoch, s.recNode, s.shared, minE, x);
    }
  }

  /** Where the walk of such a Reclaim starts. */
  lemma TakenState(s: State, acts: seq<Action>, t: Tid) returns (s2: State, z: State)
    requires RecInv(s) && Rests(s, t) && WholeReclaim(s, acts, t)
    ensures CanTake(ScanAll(s, t), t) && s2 == Take(ScanAll(s, t), t) && z == Final(s, acts)
    ensures RecInv(s2) && Legal(s2, acts[2..]) && Undisturbed(acts[2..], t) && z == Final(s2, acts[2..])
    ensures t < |s2.writers| && t < |s2.own| && s2.writers[t].Walking?
  {
    hide RecInv;
    OwnsAll(s);
    var s1 := ScanAll(s, t);
    assert acts[1] == acts[1..][0] && Apply(s, acts[0]) == s1 && Legal(s1, acts[1..]);
    assert acts[1].OnReclaim? && acts[1].t == t && Enabled(s1, acts[1]);
    assert s1.writers[t].Scanned? && ReclaimEnabled(s1, t, acts[1].reclaim);
    assert acts[1].reclaim == ATake;
    StepRec(s, acts[0]);
    StepRec(s1, acts[1]);
    assert acts[1..][1..] == acts[2..];
    s2, z := Take(s1, t), Final(s, acts);
  }

  /** When no reader is inside a read section, nothing that was retired two epochs ago or more
      stays behind. */
  lemma {:induction false} IdleReclaimCatchesUp(s: State, acts: seq<Action>, t: Tid)
    requires RecInv(s) && ReaderInv(s) && Rests(s, t) && WholeReclaim(s, acts, t)
    requires forall i :: 0 <= i < |s.readers| ==> !s.readers[i].Reading?
    ensures var z := Final(s, acts);
      && z.global == s.global && ChainTo(z.recNext, z.retireHead, z.shared, 0)
      && forall r :: r in z.shared ==> r in z.recEpoch && z.recEpoch[r] + 1 >= z.global
  {
    hide ReaderInv, ScanAll, WholeReclaim;
    ScanAnswerIdle(s, t);
    ReclaimFreesIff(s, acts, t);
  }

  lemma ScanAnswerIdle(s: State, t: Tid)
    requires ReaderInv(s) && Rests(s, t)
    requires forall i :: 0 <= i < |s.readers| ==> !s.readers[i].Reading?
    ensures t < |ScanAll(s, t).writers| && ScanAll(s, t).writers[t].Scanned? && ScanAll(s, t).writers[t].minE == s.global
  {
    hide ReaderInv;
    ScanAnswer(s, t);
  }

  // ---- lost compare-exchanges -------------------------------------------------------

  /** A push that lost its compare-exchange loads the head again and, undisturbed, succeeds. */
  lemma PushRetries(s: State, t: Tid)
    requires CanPushCas(s, t, false)
    ensures var a, b, c := OnRetire(t, APushCas(false)), OnRetire(t, APushLoad), OnRetire(t, APushCas(true));
      && Legal(s, [a] + ([b] + ([c] + [])))
      && var z, rec := Final(s, [a] + ([b] + ([c] + []))), s.writers[t].rec;
         && z.writers == s.writers[t := Resting] && z.retireHead == rec && z.shared == [rec] + s.shared
         && z.recNext == s.recNext[rec := s.retireHead] && z.role == s.role[rec := Queued]
  {
    var a, b, c := OnRetire(t, APushCas(false)), OnRetire(t, APushLoad), OnRetire(t, APushCas(true));
    var s1 := PushCas(s, t, false);
    var s2 := PushLoad(s1, t);
    var s3 := PushCas(s2, t, true);
    NoActs(s3);
    Prepend(s2, c, []);
    Prepend(s1, b, [c] + []);
    Prepend(s, a, [b] + ([c] + []));
    assert s3.writers == s.writers[t := Resting];
  }

  /** So does the merge of what Reclaim keeps. */
  lemma MergeRetries(s: State, t: Tid)
    requires CanMergeCas(s, t, false)
    ensures var a, b, c := OnReclaim(t, AMergeCas(false)), OnReclaim(t, AMergeLoad), OnReclaim(t, AMergeCas(true));
      && Legal(s, [a] + ([b] + ([c] + [])))
      && var z, w := Final(s, [a] + ([b] + ([c] + []))), s.writers[t];
         && z.writers == s.writers[t := Resting] && z.retireHead == w.keep && z.shared == s.own[t].kept + s.shared
         && z.recNext == s.recNext[w.tail := s.retireHead] && z.own == s.own[t := Lists([], [])]
  {
    var a, b, c := OnReclaim(t, AMergeCas(false)), OnReclaim(t, AMergeLoad), OnReclaim(t, AMergeCas(true));
    var s1 := MergeCas(s, t, false);
    var s2 := MergeLoad(s1, t);
    var s3 := MergeCas(s2, t, true);
    NoActs(s3);
    Prepend(s2, c, []);
    Prepend(s1, b, [c] + []);
    Prepend(s, a, [b] + ([c] + []));
    assert s3.writers == s.writers[t := Resting];
  }

  // ---- what the table steps do to a chain -------------------------------------------

  /** Where the pointer to the i-th node of bucket b's chain is. */
  function PlaceOf(b: nat, list: seq<Off>, i: nat): Place
    requires i < |list|
  {
    if i == 0 then AtHead(b) else AtNext(list[i - 1])
  }

  /** A new node goes in front of its chain. */
  lemma InsertLinks(s: State, t: Tid, b: nat, n: Off, list: seq<Off>)
    requires At(s, t, Resting) && b in s.heads && n != 0 && n !in s.role
    requires ChainTo(s.next, s.heads[b], list, 0) && n !in list
    ensures CanInsert(s, t, b, n)
    ensures var s' := Insert(s, b, n); b in s'.heads && ChainTo(s'.next, s'.heads[b], [n] + list, 0)
    ensures forall c :: c in s.heads && c != b ==> Insert(s, b, n).heads[c] == s.heads[c]
  {
    ChainFrame(s.next, s.next[n := s.heads[b]], s.heads[b], list, 0);
    assert ([n] + list)[1..] == list;
  }

  /** An erase takes one node out of its chain and leaves the others, and the node's own next
      pointer, as they were. */
  lemma {:induction false} DetachUnlinks(s: State, t: Tid, b: nat, list: seq<Off>, i: nat)
    requires b in s.heads && i < |list| && Distinct(list) && ChainTo(s.next, s.heads[b], list, 0)
    requires At(s, t, Resting) && IsRole(s, list[i], Table) && SolePointer(s, PlaceOf(b, list, i), list[i])
    ensures CanDetach(s, t, PlaceOf(b, list, i), list[i])
    ensures var s' := Detach(s, t, PlaceOf(b, list, i), list[i]);
      && b in s'.heads && ChainTo(s'.next, s'.heads[b], list[..i] + list[i + 1..], 0)
      && list[i] in s'.next && s'.next[list[i]] == s.next[list[i]]
  {
    HashTable.ChainWithout(s.next, s.heads[b], list, i);
    if i == 0 {
      assert list[..0] + list[1..] == list[1..];
    }
  }

  /** A Put with a value of another length puts one node in the place of another. */
  lemma {:induction false} ReplaceSwaps(s: State, t: Tid, b: nat, list: seq<Off>, i: nat, m: Off)
    requires b in s.heads && i < |list| && Distinct(list) && ChainTo(s.next, s.heads[b], list, 0) && m !in list
    requires At(s, t, Resting) && IsRole(s, list[i], Table) && SolePointer(s, PlaceOf(b, list, i), list[i])
    requires m != 0 && m !in s.role
    ensures CanReplace(s, t, PlaceOf(b, list, i), list[i], m)
    ensures var s' := Replace(s, t, PlaceOf(b, list, i), list[i], m);
      && b in s'.heads && ChainTo(s'.next, s'.heads[b], list[..i] + [m] + list[i + 1..], 0)
      && s'.writers == s.writers[t := Unlinked(list[i])] && IsRole(s', m, Table) && IsRole(s', list[i], Detached(t))
  {
    HashTable.ChainSwapped(s.next, s.heads[b], list, i, m);
    if i == 0 {
      assert list[..0] + [m] + list[1..] == [m] + list[1..];
    } else {
      assert list[..i] + [m] + list[i + 1..] == list[..i] + ([m] + list[i + 1..]);
    }
  }

  /** MoveToFront of the i-th node as three pointer stores, each a step of its own: out of its
      place, behind it the old first node, and to the front. */
  lemma {:induction false} MoveToFrontSteps(s: State, t: Tid, b: nat, list: seq<Off>, i: nat)
    requires At(s, t, Resting) && b in s.heads && 0 < i < |list| && Distinct(list) && ChainTo(s.next, s.heads[b], list, 0)
    requires TableInv(s) && forall n :: n in list ==> IsRole(s, n, Table)
    ensures list[i] in s.next && CanRelink(s, t, AtNext(list[i - 1]), s.next[list[i]])
    ensures var s1 := Store(s, AtNext(list[i - 1]), s.next[list[i]]);
      && CanRelink(s1, t, AtNext(list[i]), s.heads[b])
      && var s2 := Store(s1, AtNext(list[i]), s.heads[b]);
         && CanRelink(s2, t, AtHead(b), list[i])
         && var s3 := Store(s2, AtHead(b), list[i]);
            && b in s3.heads && ChainTo(s3.next, s3.heads[b], [list[i]] + (list[..i] + list[i + 1..]), 0)
            && s3.role == s.role && s3.readers == s.readers
  {
    var o, rest := list[i], list[..i] + list[i + 1..];
    assert o in list && list[i - 1] in list && list[0] in list;
    HashTable.ChainWithout(s.next, s.heads[b], list, i);
    HashTable.DistinctWithout(list, i);
    var nx1 := s.next[list[i - 1] := s.next[o]];
    ChainFrame(nx1, nx1[o := s.heads[b]], s.heads[b], rest, 0);
    assert ([o] + rest)[1..] == rest;
  }

  /** A reader is never held up: it may leave, start on any bucket, and go on from the node it
      stands on, to the node that follows there and that it holds. */
  lemma ReaderGoesOn(s: State, i: Slot)
    requires ReaderInv(s) && i < |s.readers| && s.readers[i].Reading?
    ensures CanExit(s, i) && Exit(s, i).readers[i] == Idle
    ensures forall b :: b in s.heads ==> CanReadHead(s, i, b) && ReadHead(s, i, b).readers[i].pos == s.heads[b]
    ensures var p := s.readers[i].pos;
      p != 0 ==> CanReadNext(s, i) && ReadNext(s, i).readers[i].pos == s.next[p]
                 && (s.next[p] == 0 || s.next[p] in s.readers[i].held)
  {
    assert ReaderOk(s, s.readers[i]);
  }
}
