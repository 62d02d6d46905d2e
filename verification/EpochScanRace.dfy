// How far the one-step reading of MinActiveEpoch can be relaxed.  While other threads may move
// between two accesses of the scan, Reclaim's test `retire_epoch + 1 < minE` lets it free a
// node a reader holds exactly when the node was retired after the scan began.
module EpochScanRace {
  import opened Wrappers
  import opened Chains
  import opened EpochReclaim
  import opened EpochRecords
  import opened EpochSafety

  // ---- the condition ----------------------------------------------------------------

  /** Thread t, whose scan began at epoch `from` and returned minE, is about to free a node
      retired at epoch e, and reader i holds that node. */
  ghost predicate AboutToFreeHeld(z: State, t: Tid, i: Slot, from: nat, e: nat, minE: nat) {
    && CanFreeNode(z, t) && z.writers[t].from == from && z.writers[t].minE == minE
    && z.recEpoch[z.writers[t].cur] == e
    && i < |z.readers| && z.readers[i].Reading? && z.recNode[z.writers[t].cur] in z.readers[i].held
  }

  ghost predicate Steps(s: State, acts: seq<Action>, s': State) {
    Legal(s, acts) && Final(s, acts) == s' && PromptRun(s, acts)
  }

  /** Such a free can be the first one in some run to come too early. */
  ghost predicate CanFreeHeld(from: nat, e: nat, minE: nat) {
    exists s, acts, z, t, i :: Initial(s) && Steps(s, acts, z) && AboutToFreeHeld(z, t, i, from, e, minE)
  }

  /** For every epoch `from` at which a scan can begin, every result minE and every record the
      code's test lets go. */
  lemma {:induction false} FreesHeldIff(from: nat, e: nat, minE: nat)
    requires from >= 1 && e + 1 < minE
    ensures CanFreeHeld(from, e, minE) <==> from < e
  {
    hide AboutToFreeHeld, Steps;
    if from < e {
      var s, acts, z := InterleavedScanFreesHeldNode(from, e, minE);
      assert Initial(s) && Steps(s, acts, z) && AboutToFreeHeld(z, 1, 0, from, e, minE);
    } else if CanFreeHeld(from, e, minE) {
      var s, acts, z, t, i :| Initial(s) && Steps(s, acts, z) && AboutToFreeHeld(z, t, i, from, e, minE);
      PromptFreeIsSafe(s, acts, z, t, i, from, e, minE);
    }
  }

  lemma FreeBreaks(z: State, t: Tid, i: Slot, from: nat, e: nat, minE: nat)
    requires AboutToFreeHeld(z, t, i, from, e, minE)
    ensures Enabled(z, OnReclaim(t, AFreeNode)) && !HoldsOnlyAllocated(Apply(z, OnReclaim(t, AFreeNode)))
  {
    var z' := Apply(z, OnReclaim(t, AFreeNode));
    assert z.recNode[z.writers[t].cur] in z'.readers[i].held;
  }

  lemma PromptFreeIsSafe(s: State, acts: seq<Action>, z: State, t: Tid, i: Slot, from: nat, e: nat, minE: nat)
    requires Initial(s) && Steps(s, acts, z) && e <= from
    ensures !AboutToFreeHeld(z, t, i, from, e, minE)
  {
    hide Initial, Legal, Final, PromptRun, RecInv, ReaderInv;
    StartsSafe(s);
    PromptRunsAreSafe(s, acts);
    if AboutToFreeHeld(z, t, i, from, e, minE) {
      FreeIsSafe(z, t, i);
    }
  }

  lemma StartsSafe(s: State)
    requires Initial(s)
    ensures RecInv(s) && ReaderInv(s)
  {
    hide RecInv, ReaderInv, Initial;
    InitRec(s);
    InitSafe(s);
  }

  // ---- composing runs ---------------------------------------------------------------

  lemma {:induction false} StepsConcat(a: State, x: seq<Action>, b: State, y: seq<Action>, c: State)
    requires Steps(a, x, b) && Steps(b, y, c)
    ensures Steps(a, x + y, c)
    decreases |x|
  {
    if x == [] {
      assert x + y == y;
    } else {
      assert (x + y)[1..] == x[1..] + y;
      StepsConcat(Apply(a, x[0]), x[1..], b, y, c);
    }
  }

  /** One more step at the end of a run. */
  lemma Then(a: State, x: seq<Action>, b: State, act: Action, c: State)
    requires Steps(a, x, b) && Enabled(b, act) && Apply(b, act) == c
    requires act.OnReclaim? ==> act.reclaim != AFreeNode
    ensures Steps(a, x + [act], c)
  {
    assert [act][1..] == [];
    assert Steps(c, [], c);
    StepsConcat(a, x, b, [act], c);
  }

  // ---- moving the epoch on ----------------------------------------------------------

  /** Bucket 0 is empty, writers from t on rest, offsets from m on are unused. */
  ghost predicate Calm(s: State, t: Tid, m: Off) {
    && m >= 1 && 0 in s.heads && s.heads[0] == 0
    && (forall b :: b in s.heads ==> s.heads[b] < m)
    && (forall p :: IsRole(s, p, Table) ==> p in s.next && s.next[p] < m)
    && (forall n :: n in s.role ==> 0 < n < m)
    && (forall u :: t <= u < |s.writers| ==> s.writers[u] == Resting)
  }

  /** Node m inserted into bucket 0, erased again, and the epoch bumped for it by writer t,
      which goes no further. */
  function Raised(s: State, t: Tid, m: Off): State
    requires t < |s.writers|
  {
    s.(global := s.global + 1, next := s.next[m := 0], readers := Hold(s.readers, m),
       role := s.role[m := Retired(s.global + 1, Thread(t))],
       writers := s.writers[t := Bumped(m, s.global + 1)])
  }

  lemma RaiseOnce(s: State, t: Tid, m: Off) returns (acts: seq<Action>)
    requires Calm(s, t, m) && t < |s.writers|
    ensures Steps(s, acts, Raised(s, t, m))
  {
    hide Legal, Final, PromptRun, Steps, Calm, Insert, Detach, Bump, CanInsert, CanDetach, CanBump, Raised;
    RaiseSteps(s, t, m);
    var s1 := Insert(s, 0, m);
    var s2 := Detach(s1, t, AtHead(0), m);
    NoSteps(s);
    Then(s, [], s, OnTable(t, AInsert(0, m)), s1);
    Then(s, [] + [OnTable(t, AInsert(0, m))], s1, OnTable(t, ADetach(AtHead(0), m)), s2);
    acts := [] + [OnTable(t, AInsert(0, m))] + [OnTable(t, ADetach(AtHead(0), m))];
    Then(s, acts, s2, OnRetire(t, ABump), Bump(s2, t));
    acts := acts + [OnRetire(t, ABump)];
  }

  lemma RaiseSteps(s: State, t: Tid, m: Off)
    requires Calm(s, t, m) && t < |s.writers|
    ensures 0 in s.heads && CanInsert(s, t, 0, m)
    ensures var s1 := Insert(s, 0, m);
      && m in s1.next && t < |s1.writers| && CanDetach(s1, t, AtHead(0), m)
      && CanBump(Detach(s1, t, AtHead(0), m), t) && Bump(Detach(s1, t, AtHead(0), m), t) == Raised(s, t, m)
  {
    SoleHead(s, m);
    assert s.heads[0 := m][0 := 0] == s.heads;
  }

  lemma RaisedCalm(s: State, t: Tid, m: Off)
    requires Calm(s, t, m) && t < |s.writers|
    ensures Calm(Raised(s, t, m), t + 1, m + 1)
  {
    var s1 := Raised(s, t, m);
    forall p | IsRole(s1, p, Table) ensures p in s1.next && s1.next[p] < m + 1 {
      assert IsRole(s, p, Table);
    }
  }

  lemma NoSteps(s: State)
    ensures Steps(s, [], s)
  {
  }

  lemma SoleHead(s: State, m: Off)
    requires 0 in s.heads && s.heads[0] == 0 && m >= 1
    requires forall b :: b in s.heads ==> s.heads[b] < m
    requires forall p :: IsRole(s, p, Table) ==> p in s.next && s.next[p] < m
    ensures SolePointer(Insert(s, 0, m), AtHead(0), m)
  {
  }

  /** What moving the epoch on leaves as it was. */
  ghost predicate Stays(s: State, s': State, t: Tid, m: Off) {
    && s'.heads == s.heads && s'.recNext == s.recNext && s'.recNode == s.recNode && s'.recEpoch == s.recEpoch
    && s'.retireHead == s.retireHead && s'.shared == s.shared && s'.own == s.own
    && |s'.writers| == |s.writers| && (forall u :: 0 <= u < t && u < |s.writers| ==> s'.writers[u] == s.writers[u])
    && |s'.readers| == |s.readers| && (forall i :: 0 <= i < |s.readers| ==> Holds(s.readers[i], s'.readers[i]))
    && (forall n :: n in s.role ==> IsRole(s', n, s.role[n]))
    && (forall n :: IsRole(s', n, Table) ==> IsRole(s, n, Table))
    && (forall n :: n in s.next && n < m ==> n in s'.next && s'.next[n] == s.next[n])
  }

  predicate Holds(r: Reader, r': Reader) {
    if r.Reading? then r'.Reading? && r.held <= r'.held else r' == r
  }

  lemma {:induction false} RaiseBy(s: State, t: Tid, m: Off, k: nat) returns (acts: seq<Action>, s': State)
    requires Calm(s, t, m) && t + k <= |s.writers|
    ensures Steps(s, acts, s') && Calm(s', t + k, m + k) && s'.global == s.global + k && Stays(s, s', t, m)
    decreases k
  {
    hide Steps;
    if k == 0 {
      NoSteps(s);
      acts, s' := [], s;
    } else {
      var first := RaiseOnce(s, t, m);
      RaisedCalm(s, t, m);
      var rest, z := RaiseBy(Raised(s, t, m), t + 1, m + 1, k - 1);
      StepsConcat(s, first, Raised(s, t, m), rest, z);
      acts, s' := first + rest, z;
      StaysOn(s, t, m, z);
    }
  }

  lemma StaysOn(s: State, t: Tid, m: Off, z: State)
    requires Calm(s, t, m) && t < |s.writers| && Stays(Raised(s, t, m), z, t + 1, m + 1)
    ensures Stays(s, z, t, m)
  {
    var s1 := Raised(s, t, m);
    forall i | 0 <= i < |s.readers| ensures Holds(s.readers[i], z.readers[i]) {
      assert Holds(s1.readers[i], z.readers[i]);
    }
    forall n | n in s.role ensures IsRole(z, n, s.role[n]) {
      assert IsRole(z, n, s1.role[n]);
    }
    forall n | IsRole(z, n, Table) ensures IsRole(s, n, Table) {
      assert IsRole(s1, n, Table);
    }
  }

  // ---- the run ----------------------------------------------------------------------

  /** Node 1 is alone in bucket 1, at epoch g; writers 0 and 1 have not been used to raise it. */
  ghost predicate Alone(s: State, g: nat) {
    && Calm(s, g + 1, g + 1) && s.global == g >= 1
    && s.heads == map[0 := 0, 1 := 1] && 1 in s.next && s.next[1] == 0
    && IsRole(s, 1, Table) && (forall n :: IsRole(s, n, Table) ==> n == 1)
    && |s.writers| >= 2 && |s.own| == |s.writers| && s.writers[0] == Resting && |s.readers| == 1
    && s.retireHead == 0 && s.shared == []
  }

  lemma {:induction false} RaiseAlone(s: State, g: nat, k: nat) returns (acts: seq<Action>, s': State)
    requires Alone(s, g) && g + 1 + k <= |s.writers|
    ensures Steps(s, acts, s') && Alone(s', g + k)
    ensures |s'.writers| == |s.writers| && s'.writers[1] == s.writers[1] && Holds(s.readers[0], s'.readers[0])
  {
    hide Steps;
    acts, s' := RaiseBy(s, g + 1, g + 1, k);
    assert Holds(s.readers[0], s'.readers[0]);
  }

  function Start(writers: nat): State {
    State(1, map[0 := 0, 1 := 0], map[], map[], map[], map[], 0, [Idle],
          seq(writers, _ => Resting), map[], [], seq(writers, _ => Lists([], [])))
  }

  lemma OneNode(writers: nat) returns (acts: seq<Action>, z: State)
    requires writers >= 2
    ensures Initial(Start(writers)) && Steps(Start(writers), acts, z) && Alone(z, 1)
    ensures z.readers == [Idle] && z.writers == Start(writers).writers
  {
    hide Legal, Final, PromptRun, Steps;
    var s := Start(writers);
    z := Insert(s, 1, 1);
    NoSteps(s);
    Then(s, [], s, OnTable(0, AInsert(1, 1)), z);
    acts := [] + [OnTable(0, AInsert(1, 1))];
    assert z.readers == [Idle];
  }

  /** Writer 1 begins its scan and looks at the idle slot; only then does the reader publish. */
  lemma LookThenPublish(s: State, from: nat) returns (acts: seq<Action>, z: State)
    requires Alone(s, from) && s.readers[0] == Idle && s.writers[1] == Resting
    ensures Steps(s, acts, z) && Alone(z, from) && |z.writers| == |s.writers|
    ensures z.writers[1] == Scanning(1, None, from) && z.readers[0].Reading? && 1 in z.readers[0].held
  {
    hide Legal, Final, PromptRun, Steps;
    var s1 := ScanStart(s, 1);
    var s2 := ScanSlot(s1, 1);
    var s3 := Load(s2, 0);
    z := Publish(s3, 0);
    NoSteps(s);
    Then(s, [], s, OnScan(1, AScanStart), s1);
    acts := [] + [OnScan(1, AScanStart)];
    Then(s, acts, s1, OnScan(1, AScanSlot), s2);
    acts := acts + [OnScan(1, AScanSlot)];
    Then(s, acts, s2, OnRead(0, ALoad), s3);
    acts := acts + [OnRead(0, ALoad)];
    Then(s, acts, s3, OnRead(0, APublish), z);
    acts := acts + [OnRead(0, APublish)];
    assert IsRole(s3, 1, Table) && 1 in TableNodes(s3);
    forall n | IsRole(z, n, Table) ensures n == 1 && n in z.next && z.next[n] < from + 1 {
      assert IsRole(s, n, Table);
    }
  }

  /** Node 1 was retired at epoch e and its record e is alone on the retire list; the reader
      still holds it, and writer 1 has yet to end its scan. */
  ghost predicate Pending(s: State, from: nat, e: nat, g: nat) {
    && Calm(s, g, g + 1) && s.global == g && e >= 2
    && s.retireHead == e && s.shared == [e] && IsRole(s, e, Queued)
    && e in s.recNext && e in s.recNode && s.recNode[e] == 1 && e in s.recEpoch && s.recEpoch[e] == e
    && |s.writers| >= 2 && |s.own| == |s.writers| && s.writers[1] == Scanning(1, None, from)
    && |s.readers| == 1 && s.readers[0].Reading? && 1 in s.readers[0].held
  }

  /** Writer 0 erases node 1 and retires it. */
  lemma RetireHeld(s: State, from: nat, e: nat) returns (acts: seq<Action>, z: State)
    requires e >= 2 && Alone(s, e - 1) && s.writers[1] == Scanning(1, None, from)
    requires s.readers[0].Reading? && 1 in s.readers[0].held
    ensures Steps(s, acts, z) && Pending(z, from, e, e) && |z.writers| == |s.writers|
  {
    var first, s1 := DetachHeld(s, e);
    var rest;
    rest, z := QueueHeld(s1, e);
    StepsConcat(s, first, s1, rest, z);
    acts := first + rest;
  }

  /** Writer 0 pushes the record of node 1. */
  lemma QueueHeld(s: State, e: nat) returns (acts: seq<Action>, z: State)
    requires |s.writers| > 0 && s.writers[0] == Bumped(1, e) && e > 1 && e !in s.role
    requires s.retireHead == 0 && s.shared == []
    ensures Steps(s, acts, z)
    ensures z == s.(recNode := s.recNode[e := 1], recEpoch := s.recEpoch[e := e], recNext := z.recNext,
                    retireHead := e, shared := [e], role := s.role[1 := Retired(e, Rec(e))][e := Queued],
                    writers := s.writers[0 := Resting])
    ensures e in z.recNext
  {
    hide Legal, Final, PromptRun, Steps;
    var s1 := MakeRec(s, 0, e);
    var s2 := PushLoad(s1, 0);
    z := PushCas(s2, 0, true);
    NoSteps(s);
    Then(s, [], s, OnRetire(0, AMakeRec(e)), s1);
    acts := [] + [OnRetire(0, AMakeRec(e))];
    Then(s, acts, s1, OnRetire(0, APushLoad), s2);
    acts := acts + [OnRetire(0, APushLoad)];
    Then(s, acts, s2, OnRetire(0, APushCas(true)), z);
    acts := acts + [OnRetire(0, APushCas(true))];
  }

  lemma DetachHeld(s: State, e: nat) returns (acts: seq<Action>, z: State)
    requires e >= 2 && Alone(s, e - 1)
    ensures Steps(s, acts, z) && z.global == e && z.heads == map[0 := 0, 1 := 0]
    ensures z == s.(global := e, heads := map[0 := 0, 1 := 0], role := s.role[1 := Retired(e, Thread(0))],
                    writers := s.writers[0 := Bumped(1, e)])
    ensures forall p :: !IsRole(z, p, Table)
  {
    hide Legal, Final, PromptRun, Steps;
    assert SolePointer(s, AtHead(1), 1);
    var s1 := Detach(s, 0, AtHead(1), 1);
    assert s1.heads == map[0 := 0, 1 := 0];
    z := Bump(s1, 0);
    NoSteps(s);
    Then(s, [], s, OnTable(0, ADetach(AtHead(1), 1)), s1);
    acts := [] + [OnTable(0, ADetach(AtHead(1), 1))];
    Then(s, acts, s1, OnRetire(0, ABump), z);
    acts := acts + [OnRetire(0, ABump)];
    forall p ensures !IsRole(z, p, Table) {
      assert IsRole(s, p, Table) ==> p == 1;
    }
  }

  lemma {:induction false} RaisePending(s: State, from: nat, e: nat, k: nat) returns (acts: seq<Action>, s': State)
    requires Pending(s, from, e, e) && e + k <= |s.writers|
    ensures Steps(s, acts, s') && Pending(s', from, e, e + k)
  {
    hide Steps;
    acts, s' := RaiseBy(s, e, e + 1, k);
    assert Holds(s.readers[0], s'.readers[0]);
  }

  /** The scan ends with the epoch of that moment, and the walk stands on node 1's record. */
  lemma EndScan(s: State, from: nat, e: nat, minE: nat) returns (acts: seq<Action>, z: State)
    requires Pending(s, from, e, minE) && e + 1 < minE
    ensures Steps(s, acts, z) && AboutToFreeHeld(z, 1, 0, from, e, minE)
  {
    hide Legal, Final, PromptRun, Steps;
    var s1 := ScanEnd(s, 1);
    z := Take(s1, 1);
    NoSteps(s);
    Then(s, [], s, OnScan(1, AScanEnd), s1);
    acts := [] + [OnScan(1, AScanEnd)];
    Then(s, acts, s1, OnReclaim(1, ATake), z);
    acts := acts + [OnReclaim(1, ATake)];
  }

  /** The run, for all epochs it can happen at: it ends before the free, and the free goes
      through and leaves the reader with a node that is not allocated. */
  lemma {:induction false} InterleavedScanFreesHeldNode(from: nat, e: nat, minE: nat)
      returns (s: State, acts: seq<Action>, z: State)
    requires 1 <= from < e && e + 1 < minE
    ensures Initial(s) && Steps(s, acts, z) && AboutToFreeHeld(z, 1, 0, from, e, minE)
    ensures Enabled(z, OnReclaim(1, AFreeNode)) && !HoldsOnlyAllocated(Apply(z, OnReclaim(1, AFreeNode)))
  {
    hide Steps, Alone, Pending, AboutToFreeHeld, Initial, HoldsOnlyAllocated, Enabled, Apply;
    s := Start(minE);
    var a1, s1 := OneNode(minE);
    AloneBounds(s1, 1);
    var a2, s2 := RaiseAlone(s1, 1, from - 1);
    AloneBounds(s2, from);
    var a3, s3 := LookThenPublish(s2, from);
    AloneBounds(s3, from);
    var a4, s4 := RaiseAlone(s3, from, e - 1 - from);
    AloneBounds(s4, e - 1);
    var a5, s5 := RetireHeld(s4, from, e);
    var a6, s6 := RaisePending(s5, from, e, minE - e);
    var a7, s7 := EndScan(s6, from, e, minE);
    StepsConcat(s, a1, s1, a2, s2);
    StepsConcat(s, a1 + a2, s2, a3, s3);
    StepsConcat(s, a1 + a2 + a3, s3, a4, s4);
    StepsConcat(s, a1 + a2 + a3 + a4, s4, a5, s5);
    StepsConcat(s, a1 + a2 + a3 + a4 + a5, s5, a6, s6);
    StepsConcat(s, a1 + a2 + a3 + a4 + a5 + a6, s6, a7, s7);
    acts, z := a1 + a2 + a3 + a4 + a5 + a6 + a7, s7;
    FreeBreaks(z, 1, 0, from, e, minE);
  }

  lemma AloneBounds(s: State, g: nat)
    requires Alone(s, g)
    ensures |s.writers| >= 2 && |s.readers| == 1
  {
  }
}
