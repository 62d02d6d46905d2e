// Safety of deferred freeing: no node is freed while an active reader may hold it.
//
// A reader "holds" every node that was in the table at some moment since it published its
// epoch; its traversal only ever reaches nodes it holds.  The invariant is kept by every step
// of every interleaving as long as Reclaim frees only records that were retired before its
// scan of the reader slots began.  When MinActiveEpoch is one step the code's own test
// implies that; when other threads may move between two slots of the scan it does not.
module EpochSafety {
  import opened Wrappers
  import opened Chains
  import opened EpochReclaim
  import opened EpochRecords

  // ---- invariant --------------------------------------------------------------------

  ghost predicate TableInv(s: State) {
    && (forall b :: b in s.heads ==> TableOrNull(s, s.heads[b]))
    && (forall p :: IsRole(s, p, Table) ==> p in s.next && TableOrNull(s, s.next[p]))
  }

  predicate IsNode(r: Role) { r.Table? || r.Detached? || r.Retired? }

  predicate NodeRole(s: State, n: Off) { n in s.role && IsNode(s.role[n]) }

  ghost predicate ReaderOk(s: State, r: Reader) {
    match r
    case Idle => true
    case Loaded(e) => 1 <= e <= s.global
    case Reading(e, pos, held) =>
      && 1 <= e <= s.global
      && (forall n :: IsRole(s, n, Table) ==> n in held)
      && (forall n :: n in held ==> NodeRole(s, n) && n in s.next && (s.next[n] == 0 || s.next[n] in held))
      && (forall n :: n in held && s.role[n].Retired? ==> e < s.role[n].e)
      && (pos == 0 || pos in held)
  }

  /** A scan that began at epoch `from` took notice of reader r, as far as r matters. */
  ghost predicate Seen(s: State, r: Reader, least: Option<nat>, from: nat) {
    r.Reading? ==> forall n :: n in r.held && n in s.role && s.role[n].Retired? && s.role[n].e <= from ==>
      least.Some? && least.value <= r.e
  }

  ghost predicate AllSeen(s: State, k: nat, least: Option<nat>, from: nat)
    requires k <= |s.readers|
  {
    forall i :: 0 <= i < k ==> Seen(s, s.readers[i], least, from)
  }

  ghost predicate ScanOk(s: State, w: Writer) {
    match w
    case Scanning(k, least, from) => from <= s.global && k <= |s.readers| && AllSeen(s, k, least, from)
    case Scanned(minE, from) => from <= s.global && AllSeen(s, |s.readers|, Some(minE), from)
    case Walking(minE, from, _, _, _) => from <= s.global && AllSeen(s, |s.readers|, Some(minE), from)
    case FreedNode(minE, from, _, _, _, _) => from <= s.global && AllSeen(s, |s.readers|, Some(minE), from)
    case _ => true
  }

  ghost predicate Readers(s: State) {
    forall i :: 0 <= i < |s.readers| ==> ReaderOk(s, s.readers[i])
  }

  ghost predicate Scans(s: State) {
    forall t :: 0 <= t < |s.writers| ==> ScanOk(s, s.writers[t])
  }

  ghost predicate ReaderInv(s: State) {
    s.global >= 1 && 0 !in s.role && TableInv(s) && Readers(s) && Scans(s)
  }

  lemma InitSafe(s: State)
    requires Initial(s)
    ensures ReaderInv(s)
  {
  }

  // ---- the heart: freeing is safe ---------------------------------------------------

  /** The record under Reclaim's cursor was retired before the scan began. */
  predicate Prompt(s: State, t: Tid) { Walks(s, t) && s.recEpoch[s.writers[t].cur] <= s.writers[t].from }

  lemma FreeIsSafe(s: State, t: Tid, i: Slot)
    requires RecInv(s) && ReaderInv(s) && CanFreeNode(s, t) && Prompt(s, t)
    requires i < |s.readers| && s.readers[i].Reading?
    ensures s.recNode[s.writers[t].cur] !in s.readers[i].held
  {
    var w := s.writers[t];
    NothingFreedTwice(s, t);
    assert ReaderOk(s, s.readers[i]);
    assert ScanOk(s, w);
    assert Seen(s, s.readers[i], Some(w.minE), w.from);
  }

  // ---- steps ------------------------------------------------------------------------

  /** Nothing a reader can see changes; thread t may change its pc. */
  ghost predicate SameView(s: State, s': State, t: Tid) {
    && s'.next == s.next && s'.heads == s.heads && s'.readers == s.readers && s'.global == s.global
    && 0 !in s'.role
    && (forall n :: n in s.role && IsNode(s.role[n]) ==> IsRole(s', n, s.role[n]))
    && (forall n :: n in s'.role && IsNode(s'.role[n]) ==> IsRole(s, n, s'.role[n]))
    && |s'.writers| == |s.writers|
    && (forall u :: 0 <= u < |s.writers| && u != t ==> s'.writers[u] == s.writers[u])
    && (t < |s.writers| ==> SameScan(s, s.writers[t], s'.writers[t]))
  }

  ghost predicate SameScan(s: State, w: Writer, w': Writer) {
    match w'
    case Scanning(_, _, _) => ScanOk(s, w')
    case Scanned(_, _) => ScanOk(s, w')
    case Walking(minE, from, _, _, _) => ScanOk(s, Scanned(minE, from))
    case FreedNode(minE, from, _, _, _, _) => ScanOk(s, Scanned(minE, from))
    case _ => true
  }

  lemma {:induction false} SameViewStep(s: State, s': State, t: Tid)
    requires ReaderInv(s) && SameView(s, s', t)
    ensures ReaderInv(s')
  {
    forall i | 0 <= i < |s.readers| ensures ReaderOk(s', s'.readers[i]) {
      assert ReaderOk(s, s.readers[i]);
    }
    forall u | 0 <= u < |s.writers| ensures ScanOk(s', s'.writers[u]) {
      assert ScanOk(s, s.writers[u]);
      forall i, least, from | 0 <= i < |s.readers| && Seen(s, s.readers[i], least, from)
        ensures Seen(s', s'.readers[i], least, from)
      {
        assert ReaderOk(s, s.readers[i]);
      }
    }
  }

  lemma InsertSafe(s: State, t: Tid, b: nat, n: Off)
    requires ReaderInv(s) && CanInsert(s, t, b, n)
    ensures ReaderInv(Insert(s, b, n))
  {
    var s' := Insert(s, b, n);
    forall i | 0 <= i < |s.readers| ensures ReaderOk(s', s'.readers[i]) {
      assert ReaderOk(s, s.readers[i]);
    }
    forall u | 0 <= u < |s.writers| ensures ScanOk(s', s'.writers[u]) {
      assert ScanOk(s, s.writers[u]);
      forall i, least, from | 0 <= i < |s.readers| && Seen(s, s.readers[i], least, from)
        ensures Seen(s', s'.readers[i], least, from)
      {
        assert ReaderOk(s, s.readers[i]);
      }
    }
  }

  lemma RelinkSafe(s: State, t: Tid, at: Place, q: Off)
    requires ReaderInv(s) && CanRelink(s, t, at, q)
    ensures ReaderInv(Store(s, at, q))
  {
    var s' := Store(s, at, q);
    forall i | 0 <= i < |s.readers| ensures ReaderOk(s', s'.readers[i]) {
      assert ReaderOk(s, s.readers[i]);
    }
    forall u | 0 <= u < |s.writers| ensures ScanOk(s', s'.writers[u]) {
      assert ScanOk(s, s.writers[u]);
      forall i, least, from | 0 <= i < |s.readers| && Seen(s, s.readers[i], least, from)
        ensures Seen(s', s'.readers[i], least, from)
      {
      }
    }
  }

  lemma DetachSafe(s: State, t: Tid, at: Place, n: Off)
    requires ReaderInv(s) && CanDetach(s, t, at, n)
    ensures ReaderInv(Detach(s, t, at, n))
  {
    var s' := Detach(s, t, at, n);
    forall i | 0 <= i < |s.readers| ensures ReaderOk(s', s'.readers[i]) {
      assert ReaderOk(s, s.readers[i]);
    }
    forall u | 0 <= u < |s.writers| ensures ScanOk(s', s'.writers[u]) {
      assert ScanOk(s, s.writers[u]);
      forall i, least, from | 0 <= i < |s.readers| && Seen(s, s.readers[i], least, from)
        ensures Seen(s', s'.readers[i], least, from)
      {
      }
    }
  }

  lemma ReplaceReaders(s: State, t: Tid, at: Place, n: Off, m: Off)
    requires ReaderInv(s) && CanReplace(s, t, at, n, m)
    ensures Readers(Replace(s, t, at, n, m))
  {
    hide ScanOk;
    var s' := Replace(s, t, at, n, m);
    forall i | 0 <= i < |s.readers| ensures ReaderOk(s', s'.readers[i]) {
      assert ReaderOk(s, s.readers[i]);
    }
  }

  lemma ReplaceScans(s: State, t: Tid, at: Place, n: Off, m: Off)
    requires ReaderInv(s) && CanReplace(s, t, at, n, m)
    ensures Scans(Replace(s, t, at, n, m))
  {
    hide SolePointer, TableInv;
    var s' := Replace(s, t, at, n, m);
    forall u | 0 <= u < |s.writers| ensures ScanOk(s', s'.writers[u]) {
      assert ScanOk(s, s.writers[u]);
      forall i, least, from | 0 <= i < |s.readers| && Seen(s, s.readers[i], least, from)
        ensures Seen(s', s'.readers[i], least, from)
      {
        assert ReaderOk(s, s.readers[i]);
      }
    }
  }

  lemma ReplaceSafe(s: State, t: Tid, at: Place, n: Off, m: Off)
    requires ReaderInv(s) && CanReplace(s, t, at, n, m)
    ensures ReaderInv(Replace(s, t, at, n, m))
  {
    hide Readers, Scans;
    ReplaceReaders(s, t, at, n, m);
    ReplaceScans(s, t, at, n, m);
  }

  lemma BumpSafe(s: State, t: Tid)
    requires RecInv(s) && ReaderInv(s) && CanBump(s, t)
    ensures ReaderInv(Bump(s, t))
  {
    var s' := Bump(s, t);
    assert HandOk(s, s.writers[t], t);
    forall i | 0 <= i < |s.readers| ensures ReaderOk(s', s'.readers[i]) {
      assert ReaderOk(s, s.readers[i]);
    }
    forall u | 0 <= u < |s.writers| ensures ScanOk(s', s'.writers[u]) {
      assert ScanOk(s, s.writers[u]);
      forall i, least, from: nat | 0 <= i < |s.readers| && from <= s.global && Seen(s, s.readers[i], least, from)
        ensures Seen(s', s'.readers[i], least, from)
      {
      }
    }
  }

  lemma MakeRecSafe(s: State, t: Tid, rec: Off)
    requires RecInv(s) && ReaderInv(s) && CanMakeRec(s, t, rec)
    ensures ReaderInv(MakeRec(s, t, rec))
  {
    var s' := MakeRec(s, t, rec);
    assert HandOk(s, s.writers[t], t);
    forall i | 0 <= i < |s.readers| ensures ReaderOk(s', s'.readers[i]) {
      assert ReaderOk(s, s.readers[i]);
    }
    forall u | 0 <= u < |s.writers| ensures ScanOk(s', s'.writers[u]) {
      assert ScanOk(s, s.writers[u]);
      forall i, least, from | 0 <= i < |s.readers| && Seen(s, s.readers[i], least, from)
        ensures Seen(s', s'.readers[i], least, from)
      {
        assert ReaderOk(s, s.readers[i]);
      }
    }
  }

  lemma RetireStepSafe(s: State, t: Tid, a: RetireAct)
    requires RecInv(s) && ReaderInv(s) && RetireEnabled(s, t, a)
    ensures ReaderInv(RetireStep(s, t, a))
  {
    match a
    case ABump => BumpSafe(s, t);
    case AMakeRec(rec) => MakeRecSafe(s, t, rec);
    case APushLoad => SameViewStep(s, PushLoad(s, t), t);
    case APushCas(ok) =>
      assert HandOk(s, s.writers[t], t);
      SameViewStep(s, PushCas(s, t, ok), t);
  }

  lemma TableStepSafe(s: State, t: Tid, a: TableAct)
    requires ReaderInv(s) && TableEnabled(s, t, a)
    ensures ReaderInv(TableStep(s, t, a))
  {
    match a
    case AInsert(b, n) => InsertSafe(s, t, b, n);
    case ARelink(at, q) => RelinkSafe(s, t, at, q);
    case ADetach(at, n) => DetachSafe(s, t, at, n);
    case AReplace(at, n, m) => ReplaceSafe(s, t, at, n, m);
  }

  lemma {:induction false} LeastIsLower(readers: seq<Reader>, i: nat)
    requires i < |readers| && SlotValue(readers[i]) != 0
    ensures LeastOf(readers).Some? && LeastOf(readers).value <= SlotValue(readers[i])
    decreases |readers|
  {
    if i < |readers| - 1 {
      LeastIsLower(readers[..|readers| - 1], i);
    }
  }

  lemma {:induction false} LeastIsSome(readers: seq<Reader>) returns (i: nat)
    requires LeastOf(readers).Some?
    ensures i < |readers| && SlotValue(readers[i]) == LeastOf(readers).value
    decreases |readers|
  {
    i := |readers| - 1;
    if LeastOf(readers).value != SlotValue(readers[i]) {
      i := LeastIsSome(readers[..i]);
    }
  }

  lemma ScanAllSeen(s: State, t: Tid)
    requires ReaderInv(s) && CanScanStart(s, t)
    ensures AllSeen(s, |s.readers|, Some(ScanAll(s, t).writers[t].minE), s.global)
  {
    var minE := ScanAll(s, t).writers[t].minE;
    forall i | 0 <= i < |s.readers| ensures Seen(s, s.readers[i], Some(minE), s.global) {
      assert ReaderOk(s, s.readers[i]);
      if s.readers[i].Reading? {
        LeastIsLower(s.readers, i);
      }
    }
  }

  lemma ScanStepSafe(s: State, t: Tid, a: ScanAct)
    requires ReaderInv(s) && ScanEnabled(s, t, a)
    ensures ReaderInv(ScanStep(s, t, a))
  {
    hide ReaderInv, SameView;
    ScanStepView(s, t, a);
    SameViewStep(s, ScanStep(s, t, a), t);
  }

  lemma ScanStepView(s: State, t: Tid, a: ScanAct)
    requires ReaderInv(s) && ScanEnabled(s, t, a)
    ensures SameView(s, ScanStep(s, t, a), t)
  {
    hide TableInv;
    assert ScanOk(s, s.writers[t]);
    match a
    case AScanStart =>
    case AScanSlot =>
      var w := s.writers[t];
      assert ReaderOk(s, s.readers[w.i]);
      assert AllSeen(s, w.i + 1, Look(w.least, s.readers[w.i]), w.from);
    case AScanEnd =>
      var w := s.writers[t];
      var minE := if w.least.Some? then w.least.value else s.global;
      assert forall i :: 0 <= i < w.i ==> Seen(s, s.readers[i], w.least, w.from);
      assert AllSeen(s, |s.readers|, Some(minE), w.from);
    case AScanAll => ScanAllSeen(s, t);
  }

  lemma FreeNodeSafe(s: State, t: Tid)
    requires RecInv(s) && ReaderInv(s) && CanFreeNode(s, t) && Prompt(s, t)
    ensures ReaderInv(FreeNode(s, t))
  {
    var s' := FreeNode(s, t);
    var n := s.recNode[s.writers[t].cur];
    NothingFreedTwice(s, t);
    forall i | 0 <= i < |s.readers| ensures ReaderOk(s', s'.readers[i]) {
      assert ReaderOk(s, s.readers[i]);
      if s.readers[i].Reading? {
        FreeIsSafe(s, t, i);
      }
    }
    forall u | 0 <= u < |s.writers| ensures ScanOk(s', s'.writers[u]) {
      assert ScanOk(s, s.writers[u]);
      forall i, least, from | 0 <= i < |s.readers| && Seen(s, s.readers[i], least, from)
        ensures Seen(s', s'.readers[i], least, from)
      {
      }
    }
  }

  lemma TakeSafe(s: State, t: Tid)
    requires ReaderInv(s) && CanTake(s, t)
    ensures ReaderInv(Take(s, t))
  {
    assert ScanOk(s, s.writers[t]);
    SameViewStep(s, Take(s, t), t);
  }

  lemma FreeRecSafe(s: State, t: Tid)
    requires RecInv(s) && ReaderInv(s) && CanFreeRec(s, t)
    ensures ReaderInv(FreeRec(s, t))
  {
    assert ScanOk(s, s.writers[t]);
    CurrentIsTaken(s, t);
    SameViewStep(s, FreeRec(s, t), t);
  }

  lemma KeepSafe(s: State, t: Tid)
    requires ReaderInv(s) && CanKeep(s, t)
    ensures ReaderInv(Keep(s, t))
  {
    assert ScanOk(s, s.writers[t]);
    SameViewStep(s, Keep(s, t), t);
  }

  lemma MergeCasSafe(s: State, t: Tid, ok: bool)
    requires ReaderInv(s) && CanMergeCas(s, t, ok)
    ensures ReaderInv(MergeCas(s, t, ok))
  {
    SameViewStep(s, MergeCas(s, t, ok), t);
  }

  lemma ReclaimStepSafe(s: State, t: Tid, a: ReclaimAct)
    requires RecInv(s) && ReaderInv(s) && ReclaimEnabled(s, t, a)
    requires a == AFreeNode ==> Prompt(s, t)
    ensures ReaderInv(ReclaimStep(s, t, a))
  {
    match a
    case ATake => TakeSafe(s, t);
    case AFreeNode => FreeNodeSafe(s, t);
    case AFreeRec => FreeRecSafe(s, t);
    case AKeep => KeepSafe(s, t);
    case AWalkEnd => SameViewStep(s, WalkEnd(s, t), t);
    case AMergeLoad => SameViewStep(s, MergeLoad(s, t), t);
    case AMergeCas(ok) => MergeCasSafe(s, t, ok);
  }

  lemma ReadStepSafe(s: State, i: Slot, a: ReadAct)
    requires ReaderInv(s) && ReadEnabled(s, i, a)
    ensures ReaderInv(ReadStep(s, i, a))
  {
    var s' := ReadStep(s, i, a);
    assert ReaderOk(s, s.readers[i]);
    if a.AReadHead? {
      assert TableOrNull(s, s.heads[a.b]);
    }
    forall j | 0 <= j < |s.readers| ensures ReaderOk(s', s'.readers[j]) {
      assert ReaderOk(s, s.readers[j]);
    }
    forall u | 0 <= u < |s.writers| ensures ScanOk(s', s'.writers[u]) {
      assert ScanOk(s, s.writers[u]);
      forall j, least, from | 0 <= j < |s.readers| && Seen(s, s.readers[j], least, from)
        ensures Seen(s', s'.readers[j], least, from)
      {
      }
    }
  }

  // ---- every run --------------------------------------------------------------------

  /** Along the run, every record freed was retired before the scan that freed it began. */
  predicate PromptRun(s: State, acts: seq<Action>)
    requires Legal(s, acts)
    decreases |acts|
  {
    acts == [] ||
    ((acts[0].OnReclaim? && acts[0].reclaim == AFreeNode ==> Prompt(s, acts[0].t)) &&
     PromptRun(Apply(s, acts[0]), acts[1..]))
  }

  lemma StepSafe(s: State, a: Action)
    requires RecInv(s) && ReaderInv(s) && Enabled(s, a)
    requires a.OnReclaim? && a.reclaim == AFreeNode ==> Prompt(s, a.t)
    ensures ReaderInv(Apply(s, a))
  {
    match a
    case OnTable(t, x) => TableStepSafe(s, t, x);
    case OnRetire(t, x) => RetireStepSafe(s, t, x);
    case OnScan(t, x) => ScanStepSafe(s, t, x);
    case OnReclaim(t, x) => ReclaimStepSafe(s, t, x);
    case OnRead(i, x) => ReadStepSafe(s, i, x);
  }

  /** What no reader may ever see: a node it holds, or stands on, that is not allocated. */
  ghost predicate HoldsOnlyAllocated(s: State) {
    forall i :: 0 <= i < |s.readers| && s.readers[i].Reading? ==>
      s.readers[i].held <= s.role.Keys && (s.readers[i].pos == 0 || s.readers[i].pos in s.role)
  }

  lemma {:induction false} PromptRunsAreSafe(s: State, acts: seq<Action>)
    requires RecInv(s) && ReaderInv(s) && Legal(s, acts) && PromptRun(s, acts)
    ensures RecInv(Final(s, acts)) && ReaderInv(Final(s, acts))
    ensures HoldsOnlyAllocated(Final(s, acts))
    decreases |acts|
  {
    if acts == [] {
      forall i | 0 <= i < |s.readers| && s.readers[i].Reading?
        ensures s.readers[i].held <= s.role.Keys && (s.readers[i].pos == 0 || s.readers[i].pos in s.role)
      {
        assert ReaderOk(s, s.readers[i]);
      }
    } else {
      StepRec(s, acts[0]);
      StepSafe(s, acts[0]);
      PromptRunsAreSafe(Apply(s, acts[0]), acts[1..]);
    }
  }

  // ---- MinActiveEpoch as one step ---------------------------------------------------

  /** The run never lets another thread move during a scan of the reader slots. */
  predicate OneStepScans(acts: seq<Action>) {
    forall k :: 0 <= k < |acts| ==> acts[k].OnScan? ==> acts[k].scan == AScanAll
  }

  ghost predicate ScanBound(w: Writer) {
    match w
    case Scanning(_, _, _) => false
    case Scanned(minE, from) => minE <= from
    case Walking(minE, from, _, _, _) => minE <= from
    case FreedNode(minE, from, _, _, _, _) => minE <= from
    case _ => true
  }

  ghost predicate ScanBounds(s: State) {
    forall t :: 0 <= t < |s.writers| ==> ScanBound(s.writers[t])
  }

  lemma StepKeepsScanBounds(s: State, a: Action)
    requires ReaderInv(s) && ScanBounds(s) && Enabled(s, a) && (a.OnScan? ==> a.scan == AScanAll)
    ensures ScanBounds(Apply(s, a))
    ensures a.OnReclaim? && a.reclaim == AFreeNode ==> Prompt(s, a.t)
  {
    match a
    case OnTable(t, x) => TableKeepsScanBounds(s, t, x);
    case OnRetire(t, x) => RetireKeepsScanBounds(s, t, x);
    case OnScan(t, x) => ScanAllBound(s, t);
    case OnReclaim(t, x) => ReclaimKeepsScanBounds(s, t, x);
    case OnRead(i, x) =>
      assert Apply(s, a).writers == s.writers;
  }

  lemma TableKeepsScanBounds(s: State, t: Tid, a: TableAct)
    requires ScanBounds(s) && TableEnabled(s, t, a)
    ensures ScanBounds(TableStep(s, t, a))
  {
  }

  lemma RetireKeepsScanBounds(s: State, t: Tid, a: RetireAct)
    requires ScanBounds(s) && RetireEnabled(s, t, a)
    ensures ScanBounds(RetireStep(s, t, a))
  {
  }

  lemma ScanAllBound(s: State, t: Tid)
    requires ReaderInv(s) && ScanBounds(s) && CanScanStart(s, t)
    ensures ScanBounds(ScanAll(s, t))
  {
    if LeastOf(s.readers).Some? {
      var i := LeastIsSome(s.readers);
      assert ReaderOk(s, s.readers[i]);
    }
  }

  lemma ReclaimKeepsScanBounds(s: State, t: Tid, a: ReclaimAct)
    requires ScanBounds(s) && ReclaimEnabled(s, t, a)
    ensures ScanBounds(ReclaimStep(s, t, a))
    ensures a == AFreeNode ==> Prompt(s, t)
  {
    assert ScanBound(s.writers[t]);
  }

  /** In every interleaving of any number of readers and writers in which MinActiveEpoch is one
      step, Reclaim never frees a node that an active reader may still hold, no matter how
      long a reader pauses between loading and publishing the epoch. */
  lemma {:induction false} OneStepScansAreSafe(s: State, acts: seq<Action>)
    requires Initial(s) && Legal(s, acts) && OneStepScans(acts)
    ensures HoldsOnlyAllocated(Final(s, acts))
    ensures RecInv(Final(s, acts)) && ReaderInv(Final(s, acts))
  {
    InitRec(s);
    InitSafe(s);
    OneStepScansArePrompt(s, acts);
    PromptRunsAreSafe(s, acts);
  }

  lemma {:induction false} OneStepScansArePrompt(s: State, acts: seq<Action>)
    requires RecInv(s) && ReaderInv(s) && ScanBounds(s) && Legal(s, acts) && OneStepScans(acts)
    ensures PromptRun(s, acts)
    decreases |acts|
  {
    if acts != [] {
      StepKeepsScanBounds(s, acts[0]);
      StepRec(s, acts[0]);
      StepSafe(s, acts[0]);
      OneStepScansArePrompt(Apply(s, acts[0]), acts[1..]);
    }
  }
}
