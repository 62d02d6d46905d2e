// The lock protocol of the hash map between two RehashStarts: striped spin locks taken by the
// write paths, all of them in ascending order by MigrateOneBucket, and the slab allocator's
// lock nested inside a stripe or taken alone (server/core/shm/shm_hashmap.cpp, shm_slab.cpp).
//
// A thread is at one of the program points below; any number of threads interleave at them.
module Stripes {
  import opened Wrappers
  import opened HashTable
  import opened HashContents
  import opened Modular
  import opened HashSteps

  type Tid = nat

  /** Fixed between two RehashStarts. */
  datatype Layout = Layout(locks: nat, countOld: nat, countNew: nat)

  predicate LayoutOk(c: Layout) {
    && IsPow2(c.locks) && IsPow2(c.countNew) && c.countNew >= c.locks
    && (c.countOld == 0 || (IsPow2(c.countOld) && c.countOld >= c.locks))
  }

  datatype Pc =
    | Idle
    | Want(i: nat, chain: Slot)          // Spin::lock on stripe i
    | Hold(i: nat, chain: Slot)          // walking and editing one chain
    | HoldWantSlab(i: nat, chain: Slot)  // Alloc inside the stripe: AllocNode, RetireNode
    | HoldSlab(i: nat, chain: Slot)
    | WantSlab                           // Free called by Reclaim, outside any stripe
    | InSlab
    | Acquiring(k: nat, b: nat)          // MigrateOneBucket, stripes 0..k-1 taken
    | Moving(b: nat)                     // all stripes taken
    | Releasing(k: nat)                  // stripes 0..k-1 given back

  datatype State = State(pcs: seq<Pc>, owner: seq<Option<Tid>>, slab: Option<Tid>)

  // ---- steps ------------------------------------------------------------------------

  datatype Action =
    | Begin(t: Tid, h: nat, inNew: bool) // a write whose key hashes to h, on one of the tables
    | Lock(t: Tid)
    | AskSlab(t: Tid)
    | BeginFree(t: Tid)
    | LockSlab(t: Tid)
    | UnlockSlab(t: Tid)
    | Unlock(t: Tid)
    | BeginMove(t: Tid, b: nat)
    | LockNext(t: Tid)
    | StartMove(t: Tid)
    | EndMove(t: Tid)
    | UnlockNext(t: Tid)

  function Target(c: Layout, h: nat, inNew: bool): Slot
    requires c.countNew > 0 && (!inNew ==> c.countOld > 0)
  {
    if inNew then New(h % c.countNew) else Old(h % c.countOld)
  }

  predicate Enabled(c: Layout, s: State, a: Action) {
    && c.countNew > 0 && c.locks > 0 && a.t < |s.pcs| && |s.owner| == c.locks
    && var pc := s.pcs[a.t];
       match a
       case Begin(_, _, inNew) => pc.Idle? && (!inNew ==> c.countOld > 0)
       case Lock(_) => pc.Want? && pc.i < |s.owner| && s.owner[pc.i] == None
       case AskSlab(_) => pc.Hold?
       case BeginFree(_) => pc.Idle?
       case LockSlab(_) => (pc.HoldWantSlab? || pc.WantSlab?) && s.slab == None
       case UnlockSlab(_) => pc.HoldSlab? || pc.InSlab?
       case Unlock(_) => pc.Hold? && pc.i < |s.owner|
       case BeginMove(_, b) => pc.Idle? && b < c.countOld
       case LockNext(_) => pc.Acquiring? && pc.k < |s.owner| && s.owner[pc.k] == None
       case StartMove(_) => pc.Acquiring? && pc.k == c.locks
       case EndMove(_) => pc.Moving?
       case UnlockNext(_) => pc.Releasing? && pc.k < |s.owner|
  }

  function Apply(c: Layout, s: State, a: Action): State
    requires Enabled(c, s, a)
  {
    var t, pc := a.t, s.pcs[a.t];
    match a
    case Begin(_, h, inNew) => s.(pcs := s.pcs[t := Want(h % c.locks, Target(c, h, inNew))])
    case Lock(_) => s.(pcs := s.pcs[t := Hold(pc.i, pc.chain)], owner := s.owner[pc.i := Some(t)])
    case AskSlab(_) => s.(pcs := s.pcs[t := HoldWantSlab(pc.i, pc.chain)])
    case BeginFree(_) => s.(pcs := s.pcs[t := WantSlab])
    case LockSlab(_) =>
      s.(pcs := s.pcs[t := if pc.WantSlab? then InSlab else HoldSlab(pc.i, pc.chain)], slab := Some(t))
    case UnlockSlab(_) =>
      s.(pcs := s.pcs[t := if pc.InSlab? then Idle else Hold(pc.i, pc.chain)], slab := None)
    case Unlock(_) => s.(pcs := s.pcs[t := Idle], owner := s.owner[pc.i := None])
    case BeginMove(_, b) => s.(pcs := s.pcs[t := Acquiring(0, b)])
    case LockNext(_) => s.(pcs := s.pcs[t := Acquiring(pc.k + 1, pc.b)], owner := s.owner[pc.k := Some(t)])
    case StartMove(_) => s.(pcs := s.pcs[t := Moving(pc.b)])
    case EndMove(_) => s.(pcs := s.pcs[t := Releasing(0)])
    case UnlockNext(_) =>
      s.(pcs := s.pcs[t := if pc.k + 1 == c.locks then Idle else Releasing(pc.k + 1)], owner := s.owner[pc.k := None])
  }

  predicate Legal(c: Layout, s: State, acts: seq<Action>)
    decreases |acts|
  {
    acts == [] || (Enabled(c, s, acts[0]) && Legal(c, Apply(c, s, acts[0]), acts[1..]))
  }

  function Final(c: Layout, s: State, acts: seq<Action>): State
    requires Legal(c, s, acts)
    decreases |acts|
  {
    if acts == [] then s else Final(c, Apply(c, s, acts[0]), acts[1..])
  }

  predicate Initial(c: Layout, s: State) {
    && |s.owner| == c.locks && s.slab == None
    && (forall i :: 0 <= i < |s.owner| ==> s.owner[i] == None)
    && (forall t :: 0 <= t < |s.pcs| ==> s.pcs[t] == Idle)
  }

  // ---- one stripe per chain ---------------------------------------------------------

  lemma {:induction false} PowDivides(l: nat, n: nat)
    requires IsPow2(l) && IsPow2(n) && l <= n
    ensures n % l == 0
    decreases l
  {
    if l > 1 {
      PowDivides(l / 2, n / 2);
      var q := (n / 2) / (l / 2);
      assert n / 2 == q * (l / 2);
      Doubled(q, l / 2, l, n);
    }
  }

  lemma Doubled(q: nat, half: nat, l: nat, n: nat)
    requires l == 2 * half && half > 0 && n == 2 * (q * half)
    ensures n % l == 0
  {
    DivModIs(n, l, q, 0);
  }

  /** Keys that share a chain share a stripe exactly when the stripe count divides the bucket
      count. */
  lemma {:induction false} OneStripePerChainIff(n: nat, l: nat)
    requires n > 0 && l > 0
    ensures (forall h: nat, g: nat :: h % n == g % n ==> h % l == g % l) <==> n % l == 0
  {
    if forall h: nat, g: nat :: h % n == g % n ==> h % l == g % l {
      DivModIs(n, n, 1, 0);
      assert n % n == 0 % n;
    }
    if n % l == 0 {
      forall h: nat, g: nat | h % n == g % n ensures h % l == g % l {
        StripeOfBucket(h, n, l);
        StripeOfBucket(g, n, l);
      }
    }
  }

  lemma StripeOfBucket(h: nat, n: nat, l: nat)
    requires n > 0 && l > 0 && n % l == 0
    ensures h % l == (h % n) % l
  {
    EuclidIs(h, n);
    EuclidIs(n, l);
    EuclidIs(h % n, l);
    var q, m, e := h / n, n / l, (h % n) / l;
    Regroup(q, m, e, l);
    DivModIs(h, l, q * m + e, (h % n) % l);
  }

  lemma Regroup(q: nat, m: nat, e: nat, l: nat)
    ensures q * (m * l) + e * l == (q * m + e) * l
  {
  }

  // ---- invariant --------------------------------------------------------------------

  /** A thread at pc has stripe i. */
  predicate Has(pc: Pc, i: nat) {
    match pc
    case Hold(j, _) => i == j
    case HoldWantSlab(j, _) => i == j
    case HoldSlab(j, _) => i == j
    case Acquiring(k, _) => i < k
    case Moving(_) => true
    case Releasing(k) => k <= i
    case _ => false
  }

  predicate HasSlab(pc: Pc) { pc.HoldSlab? || pc.InSlab? }

  /** The chain belongs to a table and its stripe is the one the thread locks. */
  predicate PcOk(c: Layout, pc: Pc) {
    c.locks > 0 &&
    match pc
    case Want(i, s) => i == s.b % c.locks
    case Hold(i, s) => i == s.b % c.locks
    case HoldWantSlab(i, s) => i == s.b % c.locks
    case HoldSlab(i, s) => i == s.b % c.locks
    case Acquiring(k, _) => k <= c.locks
    case Releasing(k) => k < c.locks
    case _ => true
  }

  ghost predicate Inv(c: Layout, s: State) {
    && LayoutOk(c) && c.locks > 0 && |s.owner| == c.locks
    && (forall t :: 0 <= t < |s.pcs| ==> PcOk(c, s.pcs[t]))
    && (forall t, i :: 0 <= t < |s.pcs| && 0 <= i < c.locks ==> (Has(s.pcs[t], i) <==> s.owner[i] == Some(t)))
    && (forall i :: 0 <= i < c.locks && s.owner[i].Some? ==> s.owner[i].value < |s.pcs|)
    && (forall t :: 0 <= t < |s.pcs| ==> (HasSlab(s.pcs[t]) <==> s.slab == Some(t)))
    && (s.slab.Some? ==> s.slab.value < |s.pcs|)
  }

  lemma InitInv(c: Layout, s: State)
    requires LayoutOk(c) && Initial(c, s)
    ensures Inv(c, s)
  {
    assert IsPow2(c.locks) ==> c.locks > 0;
  }

  lemma TargetStripe(c: Layout, h: nat, inNew: bool)
    requires LayoutOk(c) && c.locks > 0 && c.countNew > 0 && (!inNew ==> c.countOld > 0)
    ensures Target(c, h, inNew).b % c.locks == h % c.locks
  {
    var n := if inNew then c.countNew else c.countOld;
    PowDivides(c.locks, n);
    StripeOfBucket(h, n, c.locks);
  }

  lemma StepOwners(c: Layout, s: State, a: Action)
    requires Inv(c, s) && Enabled(c, s, a)
    ensures var s' := Apply(c, s, a);
      && |s'.owner| == c.locks && |s'.pcs| == |s.pcs|
      && (forall t, i :: 0 <= t < |s'.pcs| && 0 <= i < c.locks ==> (Has(s'.pcs[t], i) <==> s'.owner[i] == Some(t)))
      && (forall i :: 0 <= i < c.locks && s'.owner[i].Some? ==> s'.owner[i].value < |s'.pcs|)
  {
    hide LayoutOk, IsPow2, HasSlab;
    var s' := Apply(c, s, a);
    assert PcOk(c, s.pcs[a.t]);
    forall t, i | 0 <= t < |s'.pcs| && 0 <= i < c.locks ensures Has(s'.pcs[t], i) <==> s'.owner[i] == Some(t) {
      assert Has(s.pcs[t], i) <==> s.owner[i] == Some(t);
    }
  }

  lemma StepPcs(c: Layout, s: State, a: Action)
    requires Inv(c, s) && Enabled(c, s, a)
    ensures var s' := Apply(c, s, a); forall t :: 0 <= t < |s'.pcs| ==> PcOk(c, s'.pcs[t])
  {
    hide IsPow2, Has, HasSlab;
    if a.Begin? {
      TargetStripe(c, a.h, a.inNew);
    }
    assert PcOk(c, s.pcs[a.t]);
  }

  lemma {:induction false} StepInv(c: Layout, s: State, a: Action)
    requires Inv(c, s) && Enabled(c, s, a)
    ensures Inv(c, Apply(c, s, a))
  {
    hide LayoutOk, IsPow2, Has, PcOk;
    StepPcs(c, s, a);
    StepOwners(c, s, a);
  }

  lemma {:induction false} RunInv(c: Layout, s: State, acts: seq<Action>)
    requires Inv(c, s) && Legal(c, s, acts)
    ensures Inv(c, Final(c, s, acts))
    decreases |acts|
  {
    if acts != [] {
      StepInv(c, s, acts[0]);
      RunInv(c, Apply(c, s, acts[0]), acts[1..]);
    }
  }

  // ---- no two threads edit one chain ------------------------------------------------

  /** A thread at pc may be storing into a pointer of chain s. */
  predicate Edits(pc: Pc, s: Slot) {
    match pc
    case Hold(_, r) => r == s
    case HoldWantSlab(_, r) => r == s
    case HoldSlab(_, r) => r == s
    case Moving(b) => s == Old(b) || s.New?
    case _ => false
  }

  lemma ChainsExclusive(c: Layout, s: State, t: Tid, u: Tid, chain: Slot)
    requires Inv(c, s) && t < |s.pcs| && u < |s.pcs| && t != u && Edits(s.pcs[t], chain)
    ensures !Edits(s.pcs[u], chain)
  {
    EditorHasStripe(c, s, t, chain);
    if Edits(s.pcs[u], chain) {
      EditorHasStripe(c, s, u, chain);
    }
  }

  lemma EditorHasStripe(c: Layout, s: State, t: Tid, chain: Slot)
    requires Inv(c, s) && t < |s.pcs| && Edits(s.pcs[t], chain)
    ensures s.owner[chain.b % c.locks] == Some(t)
  {
    var i := chain.b % c.locks;
    assert 0 <= i < c.locks && PcOk(c, s.pcs[t]);
    assert Has(s.pcs[t], i) <==> s.owner[i] == Some(t);
  }

  lemma HolderOf(c: Layout, s: State, i: nat)
    requires Inv(c, s) && i < c.locks
    ensures (forall u :: 0 <= u < |s.pcs| ==> !Has(s.pcs[u], i)) ==> s.owner[i] == None
  {
  }

  /** In every run of any number of threads. */
  lemma {:induction false} NoTwoEditors(c: Layout, s: State, acts: seq<Action>, t: Tid, u: Tid, chain: Slot)
    requires LayoutOk(c) && Initial(c, s) && Legal(c, s, acts)
    requires var z := Final(c, s, acts); t < |z.pcs| && u < |z.pcs| && t != u && Edits(z.pcs[t], chain)
    ensures !Edits(Final(c, s, acts).pcs[u], chain)
  {
    InitInv(c, s);
    RunInv(c, s, acts);
    ChainsExclusive(c, Final(c, s, acts), t, u, chain);
  }

  /** Too few buckets in one of the tables that are in use. */
  predicate TooSmall(c: Layout) { c.countNew < c.locks || 0 < c.countOld < c.locks }

  ghost predicate BothEdit(s: State, t: Tid, u: Tid, chain: Slot) {
    t < |s.pcs| && u < |s.pcs| && t != u && Edits(s.pcs[t], chain) && Edits(s.pcs[u], chain)
  }

  /** Some run ends with two threads on one chain. */
  ghost predicate CanRace(c: Layout) {
    exists s, acts, t, u, chain :: Initial(c, s) && Legal(c, s, acts) && BothEdit(Final(c, s, acts), t, u, chain)
  }

  /** The keys that hash to 0 and to the bucket count share bucket 0, not a stripe. */
  lemma SmallTableRace(c: Layout, inNew: bool) returns (s: State, acts: seq<Action>)
    requires c.countNew > 0 && 0 < (if inNew then c.countNew else c.countOld) < c.locks
    ensures Initial(c, s) && Legal(c, s, acts) && |acts| == 4
    ensures BothEdit(Final(c, s, acts), 0, 1, if inNew then New(0) else Old(0))
  {
    var n := if inNew then c.countNew else c.countOld;
    ShareBucket(n, c.locks);
    s := State([Idle, Idle], seq(c.locks, _ => None), None);
    acts := [Begin(0, 0, inNew), Begin(1, n, inNew), Lock(0), Lock(1)];
    var chain := if inNew then New(0) else Old(0);
    var s1 := Apply(c, s, acts[0]);
    var s2 := Apply(c, s1, acts[1]);
    assert s2.pcs == [Want(0, chain), Want(n, chain)];
    var s3 := Apply(c, s2, acts[2]);
    assert s3.pcs == [Hold(0, chain), Want(n, chain)];
    var s4 := Apply(c, s3, acts[3]);
    FourSteps(c, s, acts, s1, s2, s3, s4);
  }

  lemma ShareBucket(n: nat, l: nat)
    requires 0 < n < l
    ensures n % n == 0 == 0 % n && n % l == n && 0 % l == 0
  {
    DivModIs(n, n, 1, 0);
    DivModIs(n, l, 0, n);
  }

  lemma FourSteps(c: Layout, s: State, acts: seq<Action>, s1: State, s2: State, s3: State, s4: State)
    requires |acts| == 4
    requires Enabled(c, s, acts[0]) && Apply(c, s, acts[0]) == s1 && Enabled(c, s1, acts[1]) && Apply(c, s1, acts[1]) == s2
    requires Enabled(c, s2, acts[2]) && Apply(c, s2, acts[2]) == s3 && Enabled(c, s3, acts[3]) && Apply(c, s3, acts[3]) == s4
    ensures Legal(c, s, acts) && Final(c, s, acts) == s4
  {
    hide Enabled, Apply;
    assert Legal(c, s4, acts[4..]) && Final(c, s4, acts[4..]) == s4;
    assert acts[3..][1..] == acts[4..] && acts[2..][1..] == acts[3..] && acts[1..][1..] == acts[2..];
    assert Legal(c, s3, acts[3..]) && Final(c, s3, acts[3..]) == s4;
    assert Legal(c, s2, acts[2..]) && Final(c, s2, acts[2..]) == s4;
    assert Legal(c, s1, acts[1..]) && Final(c, s1, acts[1..]) == s4;
  }

  /** For power-of-two counts, which RoundBuckets makes them: two threads can come to edit one
      chain exactly when a table in use has fewer buckets than there are stripes. */
  lemma {:induction false} RaceIffTooSmall(c: Layout)
    requires IsPow2(c.locks) && IsPow2(c.countNew) && (c.countOld == 0 || IsPow2(c.countOld))
    ensures CanRace(c) <==> TooSmall(c)
  {
    if TooSmall(c) {
      var inNew := c.countNew < c.locks;
      var s, acts := SmallTableRace(c, inNew);
      assert BothEdit(Final(c, s, acts), 0, 1, if inNew then New(0) else Old(0));
    } else if CanRace(c) {
      var s, acts, t, u, chain :| Initial(c, s) && Legal(c, s, acts) && BothEdit(Final(c, s, acts), t, u, chain);
      NoTwoEditors(c, s, acts, t, u, chain);
    }
  }

  // ---- no deadlock ------------------------------------------------------------------

  predicate Finishing(a: Action) { !a.Begin? && !a.BeginFree? && !a.BeginMove? }

  ghost predicate CanMove(c: Layout, s: State) {
    exists a :: Finishing(a) && Enabled(c, s, a)
  }

  /** A thread that holds the slab lock, wants it while it is free, or is inside a chain or a
      migration can always go on. */
  predicate Unblocked(s: State, pc: Pc) {
    || HasSlab(pc) || ((pc.HoldWantSlab? || pc.WantSlab?) && s.slab == None)
    || pc.Hold? || pc.Moving? || pc.Releasing?
  }

  lemma UnblockedMoves(c: Layout, s: State, t: Tid)
    requires Inv(c, s) && t < |s.pcs| && Unblocked(s, s.pcs[t])
    ensures CanMove(c, s)
  {
    hide LayoutOk;
    CountsPositive(c);
    assert PcOk(c, s.pcs[t]);
    var pc := s.pcs[t];
    var a := if HasSlab(pc) then UnlockSlab(t) else if pc.Hold? then Unlock(t) else if pc.Moving? then EndMove(t)
             else if pc.Releasing? then UnlockNext(t) else LockSlab(t);
    assert Finishing(a) && Enabled(c, s, a);
  }

  lemma CountsPositive(c: Layout)
    requires LayoutOk(c)
    ensures c.countNew > 0 && c.locks > 0
  {
  }

  /** The thread that has acquired the most stripes, among the first n threads. */
  lemma {:induction false} Furthest(s: State, n: nat) returns (t: Tid)
    requires n <= |s.pcs| && exists u :: 0 <= u < n && s.pcs[u].Acquiring?
    ensures t < n && s.pcs[t].Acquiring?
    ensures forall u :: 0 <= u < n && s.pcs[u].Acquiring? ==> s.pcs[u].k <= s.pcs[t].k
  {
    if exists u :: 0 <= u < n - 1 && s.pcs[u].Acquiring? {
      t := Furthest(s, n - 1);
      if s.pcs[n - 1].Acquiring? && s.pcs[n - 1].k > s.pcs[t].k {
        t := n - 1;
      }
    } else {
      t := n - 1;
    }
  }

  lemma FurthestMoves(c: Layout, s: State)
    requires Inv(c, s) && forall t :: 0 <= t < |s.pcs| ==> !Unblocked(s, s.pcs[t])
    requires forall t :: 0 <= t < |s.pcs| ==> !s.pcs[t].HoldWantSlab?
    requires exists u :: 0 <= u < |s.pcs| && s.pcs[u].Acquiring?
    ensures CanMove(c, s)
  {
    CountsPositive(c);
    hide LayoutOk;
    var t := Furthest(s, |s.pcs|);
    var k := s.pcs[t].k;
    assert PcOk(c, s.pcs[t]);
    if k == c.locks {
      assert Enabled(c, s, StartMove(t)) && Finishing(StartMove(t));
    } else {
      forall u | 0 <= u < |s.pcs| ensures !Has(s.pcs[u], k) {
        assert !Unblocked(s, s.pcs[u]);
      }
      HolderOf(c, s, k);
      assert Enabled(c, s, LockNext(t)) && Finishing(LockNext(t));
    }
  }

  /** Some thread in the middle of an operation can always take a step. */
  lemma {:induction false} NeverStuck(c: Layout, s: State)
    requires Inv(c, s) && exists t :: 0 <= t < |s.pcs| && !s.pcs[t].Idle?
    ensures CanMove(c, s)
  {
    CountsPositive(c);
    hide LayoutOk, IsPow2, CanMove;
    if t :| 0 <= t < |s.pcs| && Unblocked(s, s.pcs[t]) {
      UnblockedMoves(c, s, t);
    } else {
      SlabFree(c, s);
      if exists u :: 0 <= u < |s.pcs| && s.pcs[u].Acquiring? {
        FurthestMoves(c, s);
      } else {
        var t :| 0 <= t < |s.pcs| && !s.pcs[t].Idle?;
        OnlyWants(c, s, t);
      }
    }
  }

  lemma SlabFree(c: Layout, s: State)
    requires Inv(c, s) && forall t :: 0 <= t < |s.pcs| ==> !Unblocked(s, s.pcs[t])
    ensures s.slab == None
  {
    assert forall t :: 0 <= t < |s.pcs| ==> !HasSlab(s.pcs[t]);
  }

  lemma OnlyWants(c: Layout, s: State, t: Tid)
    requires Inv(c, s) && t < |s.pcs| && s.pcs[t].Want?
    requires forall u :: 0 <= u < |s.pcs| ==> s.pcs[u].Want? || s.pcs[u].Idle?
    ensures CanMove(c, s)
  {
    CountsPositive(c);
    assert PcOk(c, s.pcs[t]);
    var i := s.pcs[t].i;
    assert forall u :: 0 <= u < |s.pcs| ==> !Has(s.pcs[u], i);
    HolderOf(c, s, i);
    assert Enabled(c, s, Lock(t)) && Finishing(Lock(t));
  }

  /** No reachable state of any number of threads is deadlocked. */
  lemma {:induction false} NoDeadlock(c: Layout, s: State, acts: seq<Action>)
    requires LayoutOk(c) && Initial(c, s) && Legal(c, s, acts)
    requires exists t :: 0 <= t < |Final(c, s, acts).pcs| && !Final(c, s, acts).pcs[t].Idle?
    ensures CanMove(c, Final(c, s, acts))
  {
    InitInv(c, s);
    RunInv(c, s, acts);
    NeverStuck(c, Final(c, s, acts));
  }

  // ---- every operation comes to its end ---------------------------------------------

  /** Steps towards the end of an operation: all but beginning one and asking for one more
      block. */
  predicate Closing(a: Action) { Finishing(a) && !a.AskSlab? }

  /** How many such steps a thread has before it. */
  function Left(c: Layout, pc: Pc): int {
    match pc
    case Idle => 0
    case Want(_, _) => 2
    case Hold(_, _) => 1
    case HoldWantSlab(_, _) => 3
    case HoldSlab(_, _) => 2
    case WantSlab => 2
    case InSlab => 1
    case Acquiring(k, _) => (c.locks - k) + 2 + c.locks
    case Moving(_) => 1 + c.locks
    case Releasing(k) => c.locks - k
  }

  function Work(c: Layout, pcs: seq<Pc>): int {
    if pcs == [] then 0 else Left(c, pcs[0]) + Work(c, pcs[1..])
  }

  lemma {:induction false} WorkUpdate(c: Layout, pcs: seq<Pc>, t: nat, pc: Pc)
    requires t < |pcs|
    ensures Work(c, pcs[t := pc]) == Work(c, pcs) - Left(c, pcs[t]) + Left(c, pc)
    decreases |pcs|
  {
    if t > 0 {
      WorkUpdate(c, pcs[1..], t - 1, pc);
      assert pcs[t := pc][1..] == pcs[1..][t - 1 := pc];
    } else {
      assert pcs[0 := pc][1..] == pcs[1..];
    }
  }

  lemma {:induction false} WorkIs(c: Layout, pcs: seq<Pc>)
    requires c.locks > 0 && forall t :: 0 <= t < |pcs| ==> PcOk(c, pcs[t])
    ensures Work(c, pcs) >= 0
    ensures Work(c, pcs) == 0 <==> forall t :: 0 <= t < |pcs| ==> pcs[t].Idle?
    decreases |pcs|
  {
    if pcs != [] {
      assert PcOk(c, pcs[0]);
      WorkIs(c, pcs[1..]);
      assert forall t :: 0 < t < |pcs| ==> pcs[t] == pcs[1..][t - 1];
    }
  }

  /** Every closing step leaves exactly one less. */
  lemma ClosingStep(c: Layout, s: State, a: Action)
    requires Inv(c, s) && Enabled(c, s, a) && Closing(a)
    ensures Work(c, Apply(c, s, a).pcs) == Work(c, s.pcs) - 1
  {
    assert PcOk(c, s.pcs[a.t]);
    WorkUpdate(c, s.pcs, a.t, Apply(c, s, a).pcs[a.t]);
  }

  lemma {:induction false} SomeCloses(c: Layout, s: State) returns (a: Action)
    requires Inv(c, s) && exists t :: 0 <= t < |s.pcs| && !s.pcs[t].Idle?
    ensures Enabled(c, s, a) && Closing(a)
  {
    hide LayoutOk, IsPow2;
    NeverStuck(c, s);
    a :| Finishing(a) && Enabled(c, s, a);
    if a.AskSlab? {
      CountsPositive(c);
      assert PcOk(c, s.pcs[a.t]);
      a := Unlock(a.t);
    }
  }

  /** From every reachable state of any number of threads the operations that have begun can all
      be finished, in exactly as many steps as they have left, one after another. */
  lemma {:induction false} AllFinish(c: Layout, s: State) returns (acts: seq<Action>)
    requires Inv(c, s)
    ensures Legal(c, s, acts) && |acts| == Work(c, s.pcs) && forall a :: a in acts ==> Closing(a)
    ensures var z := Final(c, s, acts);
      && |z.pcs| == |s.pcs| && (forall t :: 0 <= t < |z.pcs| ==> z.pcs[t] == Idle)
      && (forall i :: 0 <= i < |z.owner| ==> z.owner[i] == None) && z.slab == None
    decreases Work(c, s.pcs)
  {
    hide LayoutOk, IsPow2, Has, Work;
    WorkIs(c, s.pcs);
    if Work(c, s.pcs) == 0 {
      acts := [];
      AllFree(c, s);
    } else {
      var a := SomeCloses(c, s);
      ClosingStep(c, s, a);
      StepInv(c, s, a);
      var rest := AllFinish(c, Apply(c, s, a));
      acts := [a] + rest;
      assert acts[1..] == rest;
    }
  }

  lemma AllFree(c: Layout, s: State)
    requires Inv(c, s) && forall t :: 0 <= t < |s.pcs| ==> s.pcs[t].Idle?
    ensures (forall i :: 0 <= i < |s.owner| ==> s.owner[i] == None) && s.slab == None
  {
    forall i | 0 <= i < |s.owner| ensures s.owner[i] == None {
      HolderOf(c, s, i);
    }
  }

  /** Conversely no run of closing steps is longer. */
  lemma {:induction false} NoLongerRun(c: Layout, s: State, acts: seq<Action>)
    requires Inv(c, s) && Legal(c, s, acts) && forall a :: a in acts ==> Closing(a)
    ensures |acts| <= Work(c, s.pcs) && Work(c, Final(c, s, acts).pcs) == Work(c, s.pcs) - |acts|
    decreases |acts|
  {
    hide LayoutOk, IsPow2, Has, Work;
    if acts == [] {
      WorkIs(c, s.pcs);
    } else {
      assert acts[0] in acts && forall a :: a in acts[1..] ==> a in acts;
      ClosingStep(c, s, acts[0]);
      StepInv(c, s, acts[0]);
      NoLongerRun(c, Apply(c, s, acts[0]), acts[1..]);
    }
  }

  // ---- the operations of one thread, undisturbed ------------------------------------

  /** Free: the slab lock is taken and given back. */
  lemma LoneFree(c: Layout, s: State, t: Tid)
    requires c.countNew > 0 && c.locks > 0 && |s.owner| == c.locks && t < |s.pcs| && s.pcs[t] == Idle && s.slab == None
    ensures Enabled(c, s, BeginFree(t))
    ensures var s1 := Apply(c, s, BeginFree(t));
      && Enabled(c, s1, LockSlab(t))
      && var s2 := Apply(c, s1, LockSlab(t));
         && s2.slab == Some(t) && s2.owner == s.owner && Enabled(c, s2, UnlockSlab(t))
         && Apply(c, s2, UnlockSlab(t)) == s
  {
    var s1 := Apply(c, s, BeginFree(t));
    var s2 := Apply(c, s1, LockSlab(t));
    assert Apply(c, s2, UnlockSlab(t)).pcs == s.pcs;
  }

  /** A write that allocates: its stripe, the slab lock inside it, and both given back. */
  lemma LoneWrite(c: Layout, s: State, t: Tid, h: nat)
    requires c.countNew > 0 && c.locks > 0 && |s.owner| == c.locks && t < |s.pcs| && s.pcs[t] == Idle && s.slab == None
    requires s.owner[h % c.locks] == None
    ensures Legal(c, s, [Begin(t, h, true), Lock(t), AskSlab(t)] + [LockSlab(t), UnlockSlab(t), Unlock(t)])
    ensures var s3 := Final3(c, s, Begin(t, h, true), Lock(t), AskSlab(t));
      && s3.Some? && s3.value == s.(pcs := s.pcs[t := HoldWantSlab(h % c.locks, New(h % c.countNew))],
                                    owner := s.owner[h % c.locks := Some(t)])
      && Final3(c, s3.value, LockSlab(t), UnlockSlab(t), Unlock(t)) == Some(s)
  {
    var i, chain := h % c.locks, New(h % c.countNew);
    var s1 := Apply(c, s, Begin(t, h, true));
    var s2 := Apply(c, s1, Lock(t));
    var s3 := Apply(c, s2, AskSlab(t));
    var s4 := Apply(c, s3, LockSlab(t));
    var s5 := Apply(c, s4, UnlockSlab(t));
    var s6 := Apply(c, s5, Unlock(t));
    assert s6.pcs == s.pcs && s6.owner == s.owner;
    RunOf3(c, s, Begin(t, h, true), Lock(t), AskSlab(t));
    RunOf3(c, s3, LockSlab(t), UnlockSlab(t), Unlock(t));
    LegalConcat(c, s, [Begin(t, h, true), Lock(t), AskSlab(t)], [LockSlab(t), UnlockSlab(t), Unlock(t)]);
  }

  function Final3(c: Layout, s: State, x: Action, y: Action, z: Action): Option<State> {
    if !Enabled(c, s, x) then None
    else
      var s1 := Apply(c, s, x);
      if !Enabled(c, s1, y) then None
      else
        var s2 := Apply(c, s1, y);
        if !Enabled(c, s2, z) then None else Some(Apply(c, s2, z))
  }

  lemma RunOf3(c: Layout, s: State, x: Action, y: Action, z: Action)
    requires Final3(c, s, x, y, z).Some?
    ensures Legal(c, s, [x, y, z]) && Final(c, s, [x, y, z]) == Final3(c, s, x, y, z).value
  {
    hide Enabled, Apply;
    var s1, s2 := Apply(c, s, x), Apply(c, Apply(c, s, x), y);
    var s3 := Apply(c, s2, z);
    assert [x, y, z][1..] == [y, z] && [y, z][1..] == [z] && [z][1..] == [];
    assert Legal(c, s3, []) && Final(c, s3, []) == s3;
    assert Legal(c, s2, [z]) && Final(c, s2, [z]) == s3;
    assert Legal(c, s1, [y, z]) && Final(c, s1, [y, z]) == s3;
  }

  lemma {:induction false} LegalConcat(c: Layout, s: State, x: seq<Action>, y: seq<Action>)
    requires Legal(c, s, x) && Legal(c, Final(c, s, x), y)
    ensures Legal(c, s, x + y) && Final(c, s, x + y) == Final(c, Final(c, s, x), y)
    decreases |x|
  {
    hide Enabled, Apply;
    if x == [] {
      assert x + y == y;
    } else {
      assert (x + y)[1..] == x[1..] + y;
      LegalConcat(c, Apply(c, s, x[0]), x[1..], y);
    }
  }

  /** A migration: from no stripe to all of them in ascending order, then on one bucket, then back
      to none. */
  lemma {:induction false} LoneMove(c: Layout, s: State, t: Tid, b: nat) returns (up: seq<Action>, down: seq<Action>)
    requires c.countNew > 0 && c.locks > 0 && |s.owner| == c.locks && t < |s.pcs| && s.pcs[t] == Idle && b < c.countOld
    requires forall i :: 0 <= i < c.locks ==> s.owner[i] == None
    ensures Legal(c, s, up)
    ensures var m := Final(c, s, up);
      && m == s.(pcs := s.pcs[t := Moving(b)], owner := seq(c.locks, _ => Some(t)))
      && Legal(c, m, down) && Final(c, m, down) == s
  {
    var s0 := Apply(c, s, BeginMove(t, b));
    assert s0 == Taken(c, s, t, b, 0);
    NoActs(c, s0);
    Prefix(c, s, BeginMove(t, b), []);
    up := [BeginMove(t, b)] + [];
    var k := 0;
    while k < c.locks
      invariant 0 <= k <= c.locks && Legal(c, s, up) && Final(c, s, up) == Taken(c, s, t, b, k)
    {
      TakeNext(c, s, t, b, k);
      Snoc(c, s, up, LockNext(t));
      up := up + [LockNext(t)];
      k := k + 1;
    }
    Snoc(c, s, up, StartMove(t));
    up := up + [StartMove(t)];
    var m := s.(pcs := s.pcs[t := Moving(b)], owner := seq(c.locks, _ => Some(t)));
    assert Final(c, s, up) == m;
    assert Apply(c, m, EndMove(t)) == Given(c, s, t, 0);
    NoActs(c, Given(c, s, t, 0));
    Prefix(c, m, EndMove(t), []);
    down := [EndMove(t)] + [];
    k := 0;
    while k < c.locks
      invariant 0 <= k <= c.locks && Legal(c, m, down) && Final(c, m, down) == Given(c, s, t, k)
    {
      GiveNext(c, s, t, k);
      Snoc(c, m, down, UnlockNext(t));
      down := down + [UnlockNext(t)];
      k := k + 1;
    }
    assert Given(c, s, t, c.locks) == s;
  }

  /** Stripes 0..k-1 taken on the way up. */
  function Taken(c: Layout, s: State, t: Tid, b: nat, k: nat): State
    requires t < |s.pcs|
  {
    s.(pcs := s.pcs[t := Acquiring(k, b)], owner := seq(c.locks, i => if i < k then Some(t) else None))
  }

  /** Stripes 0..k-1 given back on the way down. */
  function Given(c: Layout, s: State, t: Tid, k: nat): State
    requires t < |s.pcs|
  {
    s.(pcs := s.pcs[t := if k == c.locks then Idle else Releasing(k)],
       owner := seq(c.locks, i => if i < k then None else Some(t)))
  }

  lemma TakeNext(c: Layout, s: State, t: Tid, b: nat, k: nat)
    requires c.countNew > 0 && c.locks > 0 && t < |s.pcs| && k < c.locks
    ensures Enabled(c, Taken(c, s, t, b, k), LockNext(t))
    ensures Apply(c, Taken(c, s, t, b, k), LockNext(t)) == Taken(c, s, t, b, k + 1)
  {
    assert Apply(c, Taken(c, s, t, b, k), LockNext(t)).owner == Taken(c, s, t, b, k + 1).owner;
  }

  lemma GiveNext(c: Layout, s: State, t: Tid, k: nat)
    requires c.countNew > 0 && c.locks > 0 && t < |s.pcs| && k < c.locks
    ensures Enabled(c, Given(c, s, t, k), UnlockNext(t))
    ensures Apply(c, Given(c, s, t, k), UnlockNext(t)) == Given(c, s, t, k + 1)
  {
    assert Apply(c, Given(c, s, t, k), UnlockNext(t)).owner == Given(c, s, t, k + 1).owner;
  }

  lemma NoActs(c: Layout, s: State)
    ensures Legal(c, s, []) && Final(c, s, []) == s
  {
  }

  lemma Prefix(c: Layout, s: State, a: Action, rest: seq<Action>)
    requires Enabled(c, s, a) && Legal(c, Apply(c, s, a), rest)
    ensures Legal(c, s, [a] + rest) && Final(c, s, [a] + rest) == Final(c, Apply(c, s, a), rest)
  {
    assert ([a] + rest)[1..] == rest;
  }

  /** One more step at the end of a run. */
  lemma Snoc(c: Layout, s: State, acts: seq<Action>, a: Action)
    requires Legal(c, s, acts) && Enabled(c, Final(c, s, acts), a)
    ensures Legal(c, s, acts + [a]) && Final(c, s, acts + [a]) == Apply(c, Final(c, s, acts), a)
  {
    var z := Final(c, s, acts);
    NoActs(c, Apply(c, z, a));
    Prefix(c, z, a, []);
    LegalConcat(c, s, acts, [a] + []);
    assert acts + ([a] + []) == acts + [a];
  }

  // ---- what the steps stand for -----------------------------------------------------

  /** The chains a migration changes are among those its thread may edit. */
  lemma MigrationEdits(t: Table, b: nat, s: Slot)
    requires Shape(t) && b < t.countOld
    ensures Edits(Moving(b), Old(b)) && (s.New? ==> Edits(Moving(b), s))
    ensures ChainAt(Migrated(t, b), s) != ChainAt(t, s) ==> Edits(Moving(b), s)
  {
    if s.Old? {
      MigratedShape(t, b);
      assert ChainAt(Migrated(t, b), Old(s.b)) == if s.b == b then [] else ChainAt(t, Old(s.b));
    }
  }
}
