// Epoch-based deferred freeing (server/core/shm/shm_epoch.h and the retire list of
// server/core/shm/shm_hashmap.cpp), as a state machine over the atomic accesses of any
// number of reader slots and writer threads.
//
// A block is named by its offset, 0 being the null offset.  `role` is an auxiliary variable:
// it says what every allocated block is for, and its keys are the allocated blocks.  Freed
// offsets may be allocated again.  `shared` and `own` are auxiliary too: the records on the
// shared retire list and on each writer's private chains, in list order.  No step's guard and
// no update of a concrete field reads an auxiliary variable, except that an allocation returns
// a block that is not allocated.
module EpochReclaim {
  import opened Wrappers
  import opened Chains

  type Slot = nat
  type Tid = nat

  // ---- state ------------------------------------------------------------------------

  datatype Reader =
    | Idle
    | Loaded(e: nat)                             // between the load and the store of ReaderEnter
    | Reading(e: nat, pos: Off, held: set<Off>)  // published; `held`: linked at some moment since

  datatype Writer =
    | Resting
    | Unlinked(node: Off)                        // node out of its chain, RetireNode not begun
    | Bumped(node: Off, e: nat)                  // after BumpEpoch
    | Pushing(rec: Off)                          // record filled in, retire_head not loaded
    | PushReady(rec: Off, head: Off)             // rec.next stored, compare-exchange pending
    | Scanning(i: nat, least: Option<nat>, from: nat)  // MinActiveEpoch; `from`: epoch at its start
    | Scanned(minE: nat, from: nat)
    | Walking(minE: nat, from: nat, cur: Off, keep: Off, tail: Off)
    | FreedNode(minE: nat, from: nat, cur: Off, nxt: Off, keep: Off, tail: Off)
    | Merging(keep: Off, tail: Off)
    | MergeReady(keep: Off, tail: Off, head: Off)

  datatype Carrier = Thread(t: Tid) | Rec(rec: Off)

  datatype Role =
    | Table                       // node in the table
    | Detached(t: Tid)            // unlinked, its writer has not bumped the epoch yet
    | Retired(e: nat, via: Carrier)
    | Making(t: Tid)              // retire record not yet pushed
    | Queued                      // retire record on the shared list
    | Taken(t: Tid)               // retire record on a private chain of Reclaim

  datatype Lists = Lists(todo: seq<Off>, kept: seq<Off>)

  datatype State = State(
    global: nat,
    heads: map<nat, Off>,         // bucket heads of both tables
    next: map<Off, Off>,          // Node.next
    recNext: map<Off, Off>,       // RetireNode.next
    recNode: map<Off, Off>,       // RetireNode.node_off
    recEpoch: map<Off, nat>,      // RetireNode.retire_epoch
    retireHead: Off,
    readers: seq<Reader>,
    writers: seq<Writer>,
    role: map<Off, Role>,         // auxiliary
    shared: seq<Off>,             // auxiliary
    own: seq<Lists>)              // auxiliary

  function SlotValue(r: Reader): nat { if r.Reading? then r.e else 0 }

  predicate IsRole(s: State, n: Off, r: Role) { n in s.role && s.role[n] == r }

  predicate TableOrNull(s: State, n: Off) { n == 0 || IsRole(s, n, Table) }

  function TableNodes(s: State): set<Off> { set n | n in s.role && s.role[n] == Table }

  predicate At(s: State, t: Tid, w: Writer) { t < |s.writers| && s.writers[t] == w }

  function Hold(readers: seq<Reader>, n: Off): seq<Reader> {
    seq(|readers|, i requires 0 <= i < |readers| =>
      if readers[i].Reading? then readers[i].(held := readers[i].held + {n}) else readers[i])
  }

  // ---- table steps of a writer ------------------------------------------------------

  /** Put of a new key: the new node becomes the head of bucket b. */
  predicate CanInsert(s: State, t: Tid, b: nat, n: Off) {
    At(s, t, Resting) && b in s.heads && n != 0 && n !in s.role
  }
  function Insert(s: State, b: nat, n: Off): State
    requires b in s.heads
  {
    s.(next := s.next[n := s.heads[b]], heads := s.heads[b := n],
       role := s.role[n := Table], readers := Hold(s.readers, n))
  }

  /** Where the one pointer to a node is stored. */
  datatype Place = AtHead(b: nat) | AtNext(p: Off)

  predicate IsPlace(s: State, at: Place) {
    match at
    case AtHead(b) => b in s.heads
    case AtNext(p) => IsRole(s, p, Table) && p in s.next
  }
  function Target(s: State, at: Place): Off
    requires IsPlace(s, at)
  {
    if at.AtHead? then s.heads[at.b] else s.next[at.p]
  }
  function Store(s: State, at: Place, q: Off): State {
    if at.AtHead? then s.(heads := s.heads[at.b := q]) else s.(next := s.next[at.p := q])
  }

  /** One pointer store of MoveToFront or MigrateOneBucket: any table pointer may be set to
      any table node, in any order. */
  predicate CanRelink(s: State, t: Tid, at: Place, q: Off) {
    At(s, t, Resting) && IsPlace(s, at) && TableOrNull(s, q)
  }

  /** `at` holds the only table pointer to n: what a stripe holder knows of its chain. */
  predicate SolePointer(s: State, at: Place, n: Off) {
    && IsPlace(s, at) && Target(s, at) == n && at != AtNext(n)
    && (forall b :: b in s.heads && s.heads[b] == n ==> at == AtHead(b))
    && (forall p :: p in s.next && IsRole(s, p, Table) && s.next[p] == n ==> at == AtNext(p))
  }

  /** Erase: the predecessor is set to the successor of n. */
  predicate CanDetach(s: State, t: Tid, at: Place, n: Off) {
    At(s, t, Resting) && IsRole(s, n, Table) && n in s.next && SolePointer(s, at, n)
  }
  function Detach(s: State, t: Tid, at: Place, n: Off): State
    requires t < |s.writers| && n in s.next
  {
    Store(s, at, s.next[n]).(role := s.role[n := Detached(t)], writers := s.writers[t := Unlinked(n)])
  }

  /** Put with a value of another length: m takes the place of n. */
  predicate CanReplace(s: State, t: Tid, at: Place, n: Off, m: Off) {
    CanDetach(s, t, at, n) && m != 0 && m !in s.role
  }
  function Replace(s: State, t: Tid, at: Place, n: Off, m: Off): State
    requires t < |s.writers| && n in s.next
  {
    Store(s.(next := s.next[m := s.next[n]]), at, m)
      .(role := s.role[n := Detached(t)][m := Table], readers := Hold(s.readers, m),
        writers := s.writers[t := Unlinked(n)])
  }

  // ---- RetireNode -------------------------------------------------------------------

  predicate CanBump(s: State, t: Tid) { t < |s.writers| && s.writers[t].Unlinked? }
  function Bump(s: State, t: Tid): State
    requires CanBump(s, t)
  {
    var n, e := s.writers[t].node, s.global + 1;
    s.(global := e, role := s.role[n := Retired(e, Thread(t))], writers := s.writers[t := Bumped(n, e)])
  }

  predicate CanMakeRec(s: State, t: Tid, rec: Off) {
    t < |s.writers| && s.writers[t].Bumped? && rec != 0 && rec !in s.role
  }
  function MakeRec(s: State, t: Tid, rec: Off): State
    requires CanMakeRec(s, t, rec)
  {
    var n, e := s.writers[t].node, s.writers[t].e;
    s.(recNode := s.recNode[rec := n], recEpoch := s.recEpoch[rec := e],
       recNext := s.recNext[rec := 0],
       role := s.role[n := Retired(e, Rec(rec))][rec := Making(t)],
       writers := s.writers[t := Pushing(rec)])
  }

  predicate CanPushLoad(s: State, t: Tid) { t < |s.writers| && s.writers[t].Pushing? }
  function PushLoad(s: State, t: Tid): State
    requires CanPushLoad(s, t)
  {
    var rec := s.writers[t].rec;
    s.(recNext := s.recNext[rec := s.retireHead], writers := s.writers[t := PushReady(rec, s.retireHead)])
  }

  /** compare_exchange_weak: `ok` is false for a lost race or a spurious failure. */
  predicate CanPushCas(s: State, t: Tid, ok: bool) {
    t < |s.writers| && s.writers[t].PushReady? && (ok ==> s.writers[t].head == s.retireHead)
  }
  function PushCas(s: State, t: Tid, ok: bool): State
    requires CanPushCas(s, t, ok)
  {
    var rec := s.writers[t].rec;
    if ok then
      s.(retireHead := rec, shared := [rec] + s.shared, role := s.role[rec := Queued],
         writers := s.writers[t := Resting])
    else
      s.(writers := s.writers[t := Pushing(rec)])
  }

  // ---- Reclaim ----------------------------------------------------------------------

  function Min(a: Option<nat>, b: nat): nat { if a.Some? && a.value <= b then a.value else b }

  predicate CanScanStart(s: State, t: Tid) { At(s, t, Resting) }
  function ScanStart(s: State, t: Tid): State
    requires CanScanStart(s, t)
  {
    s.(writers := s.writers[t := Scanning(0, None, s.global)])
  }

  function Look(least: Option<nat>, r: Reader): Option<nat> {
    if SlotValue(r) == 0 then least else Some(Min(least, SlotValue(r)))
  }

  predicate CanScanSlot(s: State, t: Tid) {
    t < |s.writers| && s.writers[t].Scanning? && s.writers[t].i < |s.readers|
  }
  function ScanSlot(s: State, t: Tid): State
    requires CanScanSlot(s, t)
  {
    var w := s.writers[t];
    s.(writers := s.writers[t := Scanning(w.i + 1, Look(w.least, s.readers[w.i]), w.from)])
  }

  predicate CanScanEnd(s: State, t: Tid) {
    t < |s.writers| && s.writers[t].Scanning? && s.writers[t].i == |s.readers|
  }
  function ScanEnd(s: State, t: Tid): State
    requires CanScanEnd(s, t)
  {
    var w := s.writers[t];
    var minE := if w.least.Some? then w.least.value else s.global;
    s.(writers := s.writers[t := Scanned(minE, w.from)])
  }

  function LeastOf(readers: seq<Reader>): Option<nat> {
    if readers == [] then None
    else Look(LeastOf(readers[..|readers| - 1]), readers[|readers| - 1])
  }

  /** MinActiveEpoch as one step: no other thread moves during the scan. */
  function ScanAll(s: State, t: Tid): State
    requires CanScanStart(s, t)
  {
    var least := LeastOf(s.readers);
    s.(writers := s.writers[t := Scanned(if least.Some? then least.value else s.global, s.global)])
  }

  /** retire_head.exchange(0) */
  predicate CanTake(s: State, t: Tid) { t < |s.writers| && t < |s.own| && s.writers[t].Scanned? }
  function Take(s: State, t: Tid): State
    requires CanTake(s, t)
  {
    var w := s.writers[t];
    s.(retireHead := 0, shared := [],
       own := s.own[t := Lists(s.shared, [])],
       role := map r | r in s.role :: if s.role[r] == Queued then Taken(t) else s.role[r],
       writers := s.writers[t := Walking(w.minE, w.from, s.retireHead, 0, 0)])
  }

  predicate Walks(s: State, t: Tid) {
    && t < |s.writers| && t < |s.own| && s.writers[t].Walking? && s.writers[t].cur != 0
    && s.writers[t].cur in s.recNext && s.writers[t].cur in s.recNode && s.writers[t].cur in s.recEpoch
  }

  predicate CanFreeNode(s: State, t: Tid) {
    Walks(s, t) && s.recEpoch[s.writers[t].cur] + 1 < s.writers[t].minE
  }
  function FreeNode(s: State, t: Tid): State
    requires CanFreeNode(s, t)
  {
    var w := s.writers[t];
    s.(role := s.role - {s.recNode[w.cur]},
       writers := s.writers[t := FreedNode(w.minE, w.from, w.cur, s.recNext[w.cur], w.keep, w.tail)])
  }

  predicate CanFreeRec(s: State, t: Tid) {
    t < |s.writers| && t < |s.own| && s.writers[t].FreedNode? && s.own[t].todo != []
  }
  function FreeRec(s: State, t: Tid): State
    requires CanFreeRec(s, t)
  {
    var w := s.writers[t];
    s.(role := s.role - {w.cur},
       own := s.own[t := Lists(s.own[t].todo[1..], s.own[t].kept)],
       writers := s.writers[t := Walking(w.minE, w.from, w.nxt, w.keep, w.tail)])
  }

  predicate CanKeep(s: State, t: Tid) {
    && Walks(s, t) && !(s.recEpoch[s.writers[t].cur] + 1 < s.writers[t].minE)
    && s.own[t].todo != []
  }
  function Keep(s: State, t: Tid): State
    requires CanKeep(s, t)
  {
    var w := s.writers[t];
    var cleared := s.recNext[w.cur := 0];
    s.(recNext := if w.keep == 0 then cleared else cleared[w.tail := w.cur],
       own := s.own[t := Lists(s.own[t].todo[1..], s.own[t].kept + [w.cur])],
       writers := s.writers[t := Walking(w.minE, w.from, s.recNext[w.cur],
                                         if w.keep == 0 then w.cur else w.keep, w.cur)])
  }

  predicate CanWalkEnd(s: State, t: Tid) {
    t < |s.writers| && s.writers[t].Walking? && s.writers[t].cur == 0
  }
  function WalkEnd(s: State, t: Tid): State
    requires CanWalkEnd(s, t)
  {
    var w := s.writers[t];
    s.(writers := s.writers[t := if w.keep == 0 then Resting else Merging(w.keep, w.tail)])
  }

  predicate CanMergeLoad(s: State, t: Tid) { t < |s.writers| && s.writers[t].Merging? }
  function MergeLoad(s: State, t: Tid): State
    requires CanMergeLoad(s, t)
  {
    var w := s.writers[t];
    s.(recNext := s.recNext[w.tail := s.retireHead],
       writers := s.writers[t := MergeReady(w.keep, w.tail, s.retireHead)])
  }

  predicate CanMergeCas(s: State, t: Tid, ok: bool) {
    t < |s.writers| && t < |s.own| && s.writers[t].MergeReady? && (ok ==> s.writers[t].head == s.retireHead)
  }
  function MergeCas(s: State, t: Tid, ok: bool): State
    requires CanMergeCas(s, t, ok)
  {
    var w := s.writers[t];
    if ok then
      s.(retireHead := w.keep, shared := s.own[t].kept + s.shared,
         own := s.own[t := Lists([], [])],
         role := map r | r in s.role :: if s.role[r] == Taken(t) then Queued else s.role[r],
         writers := s.writers[t := Resting])
    else
      s.(writers := s.writers[t := Merging(w.keep, w.tail)])
  }

  // ---- reader steps -----------------------------------------------------------------

  predicate CanLoad(s: State, i: Slot) { i < |s.readers| && s.readers[i].Idle? }
  function Load(s: State, i: Slot): State
    requires CanLoad(s, i)
  {
    s.(readers := s.readers[i := Loaded(s.global)])
  }

  predicate CanPublish(s: State, i: Slot) { i < |s.readers| && s.readers[i].Loaded? }
  function Publish(s: State, i: Slot): State
    requires CanPublish(s, i)
  {
    s.(readers := s.readers[i := Reading(s.readers[i].e, 0, TableNodes(s))])
  }

  predicate CanReadHead(s: State, i: Slot, b: nat) {
    i < |s.readers| && s.readers[i].Reading? && b in s.heads
  }
  function ReadHead(s: State, i: Slot, b: nat): State
    requires CanReadHead(s, i, b)
  {
    s.(readers := s.readers[i := s.readers[i].(pos := s.heads[b])])
  }

  predicate CanReadNext(s: State, i: Slot) {
    i < |s.readers| && s.readers[i].Reading? && s.readers[i].pos != 0 && s.readers[i].pos in s.next
  }
  function ReadNext(s: State, i: Slot): State
    requires CanReadNext(s, i)
  {
    s.(readers := s.readers[i := s.readers[i].(pos := s.next[s.readers[i].pos])])
  }

  predicate CanExit(s: State, i: Slot) { i < |s.readers| && s.readers[i].Reading? }
  function Exit(s: State, i: Slot): State
    requires CanExit(s, i)
  {
    s.(readers := s.readers[i := Idle])
  }

  // ---- runs -------------------------------------------------------------------------

  datatype TableAct = AInsert(b: nat, n: Off) | ARelink(at: Place, q: Off)
                    | ADetach(at: Place, n: Off) | AReplace(at: Place, n: Off, m: Off)
  datatype RetireAct = ABump | AMakeRec(rec: Off) | APushLoad | APushCas(ok: bool)
  datatype ScanAct = AScanStart | AScanSlot | AScanEnd | AScanAll
  datatype ReclaimAct = ATake | AFreeNode | AFreeRec | AKeep | AWalkEnd | AMergeLoad | AMergeCas(ok: bool)
  datatype ReadAct = ALoad | APublish | AReadHead(b: nat) | AReadNext | AExit

  datatype Action =
    | OnTable(t: Tid, table: TableAct)
    | OnRetire(t: Tid, retire: RetireAct)
    | OnScan(t: Tid, scan: ScanAct)
    | OnReclaim(t: Tid, reclaim: ReclaimAct)
    | OnRead(i: Slot, read: ReadAct)

  predicate TableEnabled(s: State, t: Tid, a: TableAct) {
    match a
    case AInsert(b, n) => CanInsert(s, t, b, n)
    case ARelink(at, q) => CanRelink(s, t, at, q)
    case ADetach(at, n) => CanDetach(s, t, at, n)
    case AReplace(at, n, m) => CanReplace(s, t, at, n, m)
  }

  function TableStep(s: State, t: Tid, a: TableAct): State
    requires TableEnabled(s, t, a)
  {
    match a
    case AInsert(b, n) => Insert(s, b, n)
    case ARelink(at, q) => Store(s, at, q)
    case ADetach(at, n) => Detach(s, t, at, n)
    case AReplace(at, n, m) => Replace(s, t, at, n, m)
  }

  predicate RetireEnabled(s: State, t: Tid, a: RetireAct) {
    match a
    case ABump => CanBump(s, t)
    case AMakeRec(rec) => CanMakeRec(s, t, rec)
    case APushLoad => CanPushLoad(s, t)
    case APushCas(ok) => CanPushCas(s, t, ok)
  }

  function RetireStep(s: State, t: Tid, a: RetireAct): State
    requires RetireEnabled(s, t, a)
  {
    match a
    case ABump => Bump(s, t)
    case AMakeRec(rec) => MakeRec(s, t, rec)
    case APushLoad => PushLoad(s, t)
    case APushCas(ok) => PushCas(s, t, ok)
  }

  predicate ScanEnabled(s: State, t: Tid, a: ScanAct) {
    match a
    case AScanStart => CanScanStart(s, t)
    case AScanSlot => CanScanSlot(s, t)
    case AScanEnd => CanScanEnd(s, t)
    case AScanAll => CanScanStart(s, t)
  }

  function ScanStep(s: State, t: Tid, a: ScanAct): State
    requires ScanEnabled(s, t, a)
  {
    match a
    case AScanStart => ScanStart(s, t)
    case AScanSlot => ScanSlot(s, t)
    case AScanEnd => ScanEnd(s, t)
    case AScanAll => ScanAll(s, t)
  }

  predicate ReclaimEnabled(s: State, t: Tid, a: ReclaimAct) {
    match a
    case ATake => CanTake(s, t)
    case AFreeNode => CanFreeNode(s, t)
    case AFreeRec => CanFreeRec(s, t)
    case AKeep => CanKeep(s, t)
    case AWalkEnd => CanWalkEnd(s, t)
    case AMergeLoad => CanMergeLoad(s, t)
    case AMergeCas(ok) => CanMergeCas(s, t, ok)
  }

  function ReclaimStep(s: State, t: Tid, a: ReclaimAct): State
    requires ReclaimEnabled(s, t, a)
  {
    match a
    case ATake => Take(s, t)
    case AFreeNode => FreeNode(s, t)
    case AFreeRec => FreeRec(s, t)
    case AKeep => Keep(s, t)
    case AWalkEnd => WalkEnd(s, t)
    case AMergeLoad => MergeLoad(s, t)
    case AMergeCas(ok) => MergeCas(s, t, ok)
  }

  predicate ReadEnabled(s: State, i: Slot, a: ReadAct) {
    match a
    case ALoad => CanLoad(s, i)
    case APublish => CanPublish(s, i)
    case AReadHead(b) => CanReadHead(s, i, b)
    case AReadNext => CanReadNext(s, i)
    case AExit => CanExit(s, i)
  }

  function ReadStep(s: State, i: Slot, a: ReadAct): State
    requires ReadEnabled(s, i, a)
  {
    match a
    case ALoad => Load(s, i)
    case APublish => Publish(s, i)
    case AReadHead(b) => ReadHead(s, i, b)
    case AReadNext => ReadNext(s, i)
    case AExit => Exit(s, i)
  }

  predicate Enabled(s: State, a: Action) {
    match a
    case OnTable(t, x) => TableEnabled(s, t, x)
    case OnRetire(t, x) => RetireEnabled(s, t, x)
    case OnScan(t, x) => ScanEnabled(s, t, x)
    case OnReclaim(t, x) => ReclaimEnabled(s, t, x)
    case OnRead(i, x) => ReadEnabled(s, i, x)
  }

  function Apply(s: State, a: Action): State
    requires Enabled(s, a)
  {
    match a
    case OnTable(t, x) => TableStep(s, t, x)
    case OnRetire(t, x) => RetireStep(s, t, x)
    case OnScan(t, x) => ScanStep(s, t, x)
    case OnReclaim(t, x) => ReclaimStep(s, t, x)
    case OnRead(i, x) => ReadStep(s, i, x)
  }

  predicate Legal(s: State, acts: seq<Action>)
    decreases |acts|
  {
    acts == [] || (Enabled(s, acts[0]) && Legal(Apply(s, acts[0]), acts[1..]))
  }

  function Final(s: State, acts: seq<Action>): State
    requires Legal(s, acts)
    decreases |acts|
  {
    if acts == [] then s else Final(Apply(s, acts[0]), acts[1..])
  }

  predicate Initial(s: State) {
    && s.global == 1 && s.retireHead == 0 && s.shared == [] && s.role == map[]
    && (forall b :: b in s.heads ==> s.heads[b] == 0)
    && (forall i :: 0 <= i < |s.readers| ==> s.readers[i] == Idle)
    && (forall t :: 0 <= t < |s.writers| ==> s.writers[t] == Resting)
    && |s.own| == |s.writers|
    && (forall t :: 0 <= t < |s.own| ==> s.own[t] == Lists([], []))
  }
}
