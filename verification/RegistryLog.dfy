// The change log of the service registry (server/center/ServiceRegistry.cpp): entries queued
// for subscribers, and what replaying them gives.
module RegistryLog {
  type Id = string

  datatype Instance = Instance(id: Id, svc: string, info: nat)

  datatype Delta = Upsert(inst: Instance) | Offline(inst: Instance)

  /** One call of push_delta_to_others. */
  datatype Change = Change(id: Id, delta: Delta)

  /** A change is about the instance it carries. */
  predicate Honest(c: Change) { c.delta.inst.id == c.id }

  /** What reaches subscriber s: everything but its own changes. */
  function Others(log: seq<Change>, s: Id): seq<Delta> {
    if log == [] then []
    else (if log[0].id == s then [] else [log[0].delta]) + Others(log[1..], s)
  }

  function AllOf(log: seq<Change>): seq<Delta> {
    if log == [] then [] else [log[0].delta] + AllOf(log[1..])
  }

  /** The ids a receiver knows after the deltas, one after another. */
  function Replay(known: set<Id>, deltas: seq<Delta>): set<Id>
    decreases |deltas|
  {
    if deltas == [] then known
    else Replay(if deltas[0].Upsert? then known + {deltas[0].inst.id} else known - {deltas[0].inst.id}, deltas[1..])
  }

  lemma {:induction false} OthersConcat(a: seq<Change>, b: seq<Change>, s: Id)
    ensures Others(a + b, s) == Others(a, s) + Others(b, s)
    decreases |a|
  {
    if a == [] {
      assert a + b == b;
    } else {
      OthersConcat(a[1..], b, s);
      assert (a + b)[1..] == a[1..] + b;
    }
  }

  lemma {:induction false} AllOfConcat(a: seq<Change>, b: seq<Change>)
    ensures AllOf(a + b) == AllOf(a) + AllOf(b)
    decreases |a|
  {
    if a == [] {
      assert a + b == b;
    } else {
      AllOfConcat(a[1..], b);
      assert (a + b)[1..] == a[1..] + b;
    }
  }

  lemma {:induction false} ReplayConcat(m: set<Id>, a: seq<Delta>, b: seq<Delta>)
    ensures Replay(m, a + b) == Replay(Replay(m, a), b)
    decreases |a|
  {
    if a == [] {
      assert a + b == b;
    } else {
      assert (a + b)[1..] == a[1..] + b;
      ReplayConcat(if a[0].Upsert? then m + {a[0].inst.id} else m - {a[0].inst.id}, a[1..], b);
    }
  }

  predicate Mentions(d: seq<Delta>, x: Id) {
    exists i :: 0 <= i < |d| && d[i].inst.id == x
  }

  /** The last entry about x decides; without one x stays as it was. */
  lemma {:induction false} LastDecides(m: set<Id>, n: set<Id>, d: seq<Delta>, x: Id)
    requires Mentions(d, x) || (x in m <==> x in n)
    ensures x in Replay(m, d) <==> x in Replay(n, d)
    ensures !Mentions(d, x) ==> (x in Replay(m, d) <==> x in m)
    decreases |d|
  {
    if d != [] {
      var m1 := if d[0].Upsert? then m + {d[0].inst.id} else m - {d[0].inst.id};
      var n1 := if d[0].Upsert? then n + {d[0].inst.id} else n - {d[0].inst.id};
      MentionsRest(d, x);
      LastDecides(m1, n1, d[1..], x);
    }
  }

  lemma MentionsRest(d: seq<Delta>, x: Id)
    requires d != []
    ensures Mentions(d, x) <==> d[0].inst.id == x || Mentions(d[1..], x)
  {
    if Mentions(d, x) && d[0].inst.id != x {
      var i :| 0 <= i < |d| && d[i].inst.id == x;
      assert d[1..][i - 1].inst.id == x;
    }
    if Mentions(d[1..], x) {
      var i :| 0 <= i < |d[1..]| && d[1..][i].inst.id == x;
      assert d[i + 1].inst.id == x;
    }
  }

  /** Replaying a stretch a second time, over what it led to, changes nothing. */
  lemma {:induction false} ReplayAgain(m: set<Id>, early: seq<Delta>, late: seq<Delta>)
    ensures Replay(Replay(m, early), early + late) == Replay(m, early + late)
  {
    forall x ensures x in Replay(Replay(m, early), early + late) <==> x in Replay(m, early + late) {
      if Mentions(early, x) {
        var i :| 0 <= i < |early| && early[i].inst.id == x;
        assert (early + late)[i].inst.id == x;
        LastDecides(Replay(m, early), m, early + late, x);
      } else {
        LastDecides(m, m, early, x);
        LastDecides(Replay(m, early), m, early + late, x);
      }
    }
  }

  /** Leaving out s's own changes only loses s. */
  lemma {:induction false} ReplayOthers(m: set<Id>, log: seq<Change>, s: Id)
    requires forall c :: c in log ==> Honest(c)
    ensures Replay(m - {s}, Others(log, s)) == Replay(m, AllOf(log)) - {s}
    decreases |log|
  {
    if log != [] {
      var c, rest := log[0], log[1..];
      assert c in log && Honest(c) && forall e :: e in rest ==> e in log;
      var d := c.delta;
      var m1 := if d.Upsert? then m + {c.id} else m - {c.id};
      ReplayOthers(m1, rest, s);
      assert AllOf(log)[1..] == AllOf(rest);
      if c.id == s {
        assert m1 - {s} == m - {s};
        assert Others(log, s) == Others(rest, s);
      } else {
        var others := Others(log, s);
        assert others[1..] == Others(rest, s);
        assert m1 - {s} == if d.Upsert? then (m - {s}) + {c.id} else (m - {s}) - {c.id};
      }
    }
  }

  // ---- the theorems about subscribers ------------------------------------------------

  /** The registry at log length k, when it is what its log says. */
  function At(log: seq<Change>, k: nat): set<Id>
    requires k <= |log|
  {
    Replay({}, AllOf(log[..k]))
  }

  /** Replaying all a subscriber was given since log length i over the registry of a snapshot
      taken at i or later gives the registry now, up to the subscriber itself. */
  lemma {:induction false} SnapshotThenDeltas(log: seq<Change>, i: nat, j: nat, s: Id)
    requires i <= j <= |log| && forall c :: c in log ==> Honest(c)
    ensures Replay(At(log, j) - {s}, Others(log[i..], s)) == At(log, |log|) - {s}
  {
    var early, late := log[i..j], log[j..];
    assert log[i..] == early + late && log[..j] == log[..i] + early && log == log[..i] + (early + late);
    assert log[..|log|] == log;
    AllOfConcat(log[..i], early);
    AllOfConcat(log[..i], early + late);
    AllOfConcat(early, late);
    var base := At(log, i);
    ReplayConcat({}, AllOf(log[..i]), AllOf(early));
    ReplayConcat({}, AllOf(log[..i]), AllOf(early + late));
    ReplayAgain(base, AllOf(early), AllOf(late));
    assert forall c :: c in log[i..] ==> c in log;
    ReplayOthers(At(log, j), log[i..], s);
  }

  /** In particular over the registry at subscription. */
  lemma {:induction false} SubscriptionThenDeltas(log: seq<Change>, i: nat, s: Id)
    requires i <= |log| && forall c :: c in log ==> Honest(c)
    ensures Replay(At(log, i) - {s}, Others(log[i..], s)) == At(log, |log|) - {s}
  {
    SnapshotThenDeltas(log, i, i, s);
  }
}
