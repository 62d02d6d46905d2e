// The service registry (server/center/ServiceRegistry.cpp): instances per service, deadlines,
// and one queue of changes per subscriber.  Every operation runs under the registry's lock.
//
// `now` is the clock reading of the call.  The ghost log has one entry per call of
// push_delta_to_others; `since` and `popped` say when each subscriber joined it and what it
// has taken from its queue.
module Registry {
  import opened Wrappers
  import opened RegistryLog

  type Table = map<string, map<Id, Instance>>

  function Members(r: Table): set<Id> { set svc, id | svc in r && id in r[svc] :: id }

  /** No service entry is empty, and every instance is filed under its own service and id. */
  ghost predicate Tidy(r: Table) {
    && (forall svc :: svc in r ==> r[svc] != map[])
    && (forall svc, id :: svc in r && id in r[svc] ==> r[svc][id].id == id && r[svc][id].svc == svc)
  }

  /** Each id stays under one service name. */
  ghost predicate OneService(r: Table) {
    forall a, b, id :: a in r && b in r && id in r[a] && id in r[b] ==> a == b
  }

  /** No other service has the id. */
  ghost predicate OnlyUnder(r: Table, svc: string, id: Id) {
    forall a :: a in r && id in r[a] ==> a == svc
  }

  /** The table without the ids in `gone`, and without entries that become empty. */
  function Kept(r: Table, gone: set<Id>): Table {
    map svc | svc in r && r[svc] - gone != map[] :: r[svc] - gone
  }

  function Filed(r: Table, inst: Instance): Table {
    r[inst.svc := (if inst.svc in r then r[inst.svc] else map[])[inst.id := inst]]
  }

  function Unfiled(r: Table, svc: string, id: Id): Table {
    if svc !in r then r
    else if r[svc] - {id} == map[] then r - {svc}
    else r[svc := r[svc] - {id}]
  }

  /** The offline entries of one cleanup, in the order the ids are removed. */
  function Offlines(gone: seq<Instance>): seq<Change> {
    seq(|gone|, i requires 0 <= i < |gone| => Change(gone[i].id, Offline(gone[i])))
  }

  ghost predicate DistinctIds(gone: seq<Instance>) {
    forall i, j :: 0 <= i < j < |gone| ==> gone[i].id != gone[j].id
  }

  function IdsOf(gone: seq<Instance>): set<Id> { set i | 0 <= i < |gone| :: gone[i].id }

  // ---- the subscribers' side of the invariant -----------------------------------------

  datatype Subs = Subs(log: seq<Change>, since: map<Id, nat>, popped: map<Id, seq<Delta>>, queues: map<Id, seq<Delta>>)

  ghost predicate Delivered(b: Subs, s: Id) {
    && s in b.since && s in b.popped && s in b.queues && b.since[s] <= |b.log|
    && b.popped[s] + b.queues[s] == Others(b.log[b.since[s]..], s)
  }

  ghost predicate SubsOk(b: Subs) {
    && b.since.Keys == b.queues.Keys && b.popped.Keys == b.queues.Keys
    && (forall s :: s in b.queues ==> Delivered(b, s))
    && (forall c :: c in b.log ==> Honest(c))
  }

  function Pushed(queues: map<Id, seq<Delta>>, c: Change): map<Id, seq<Delta>> {
    map s | s in queues :: if s == c.id then queues[s] else queues[s] + [c.delta]
  }

  function Logged(b: Subs, c: Change): Subs { b.(log := b.log + [c], queues := Pushed(b.queues, c)) }

  lemma LoggedOk(b: Subs, c: Change)
    requires SubsOk(b) && Honest(c)
    ensures SubsOk(Logged(b, c))
  {
    hide Delivered;
    forall s | s in b.queues ensures Delivered(Logged(b, c), s) {
      LoggedOne(b, c, s);
    }
  }

  lemma LoggedOne(b: Subs, c: Change, s: Id)
    requires Delivered(b, s)
    ensures Delivered(Logged(b, c), s)
  {
    var part := b.log[b.since[s]..];
    assert (b.log + [c])[b.since[s]..] == part + [c];
    OthersConcat(part, [c], s);
    OneChange(c, s);
    assert b.popped[s] + (b.queues[s] + [c.delta]) == b.popped[s] + b.queues[s] + [c.delta];
  }

  /** The queue of s taken and emptied. */
  function Drained(b: Subs, s: Id): Subs
    requires s in b.queues && s in b.popped
  {
    b.(queues := b.queues[s := []], popped := b.popped[s := b.popped[s] + b.queues[s]])
  }

  lemma DrainedOk(b: Subs, s: Id)
    requires SubsOk(b) && s in b.queues
    ensures s in b.popped && SubsOk(Drained(b, s))
  {
    hide Delivered;
    QueueHasPopped(b, s);
    forall u | u in b.queues ensures Delivered(Drained(b, s), u) {
      assert Delivered(b, u);
      DrainedOne(b, s, u);
    }
  }

  lemma QueueHasPopped(b: Subs, s: Id)
    requires SubsOk(b) && s in b.queues
    ensures s in b.popped
  {
    assert Delivered(b, s);
  }

  lemma DrainedOne(b: Subs, s: Id, u: Id)
    requires s in b.queues && s in b.popped && Delivered(b, u)
    ensures Delivered(Drained(b, s), u)
  {
    var b' := Drained(b, s);
    assert b'.popped[s] + [] == b.popped[s] + b.queues[s];
  }

  lemma OneChange(c: Change, s: Id)
    ensures Others([c], s) == if c.id == s then [] else [c.delta]
    ensures AllOf([c]) == [c.delta]
  {
    assert [c][1..] == [];
  }

  // ---- effects on the membership ------------------------------------------------------

  lemma FiledMembers(r: Table, inst: Instance)
    ensures Members(Filed(r, inst)) == Members(r) + {inst.id}
  {
    var u := Filed(r, inst);
    forall id ensures id in Members(u) <==> id in Members(r) + {inst.id} {
      if id in Members(r) {
        var svc :| svc in r && id in r[svc];
        assert svc in u && id in u[svc];
      }
      if id == inst.id {
        assert inst.svc in u && id in u[inst.svc];
      }
    }
  }

  /** The id leaves the table exactly when no other service has it. */
  lemma UnfiledLeaves(r: Table, svc: string, id: Id)
    requires svc in r && id in r[svc]
    ensures Members(Unfiled(r, svc, id)) == if OnlyUnder(r, svc, id) then Members(r) - {id} else Members(r)
    ensures id in Members(r)
  {
    var u := Unfiled(r, svc, id);
    forall x | x in Members(r) && (x != id || !OnlyUnder(r, svc, id)) ensures x in Members(u) {
      var a :| a in r && x in r[a] && (x != id || a != svc);
      assert a == svc ==> x in r[svc] - {id};
      assert a in u && x in u[a];
    }
  }

  lemma UnfiledTidy(r: Table, svc: string, id: Id)
    requires Tidy(r)
    ensures Tidy(Unfiled(r, svc, id))
  {
  }

  lemma KeptMembers(r: Table, gone: set<Id>)
    ensures Members(Kept(r, gone)) == Members(r) - gone
  {
    var u := Kept(r, gone);
    forall x | x in Members(r) - gone ensures x in Members(u) {
      var a :| a in r && x in r[a];
      assert x in r[a] - gone;
      assert a in u && x in u[a];
    }
  }

  lemma KeptTidy(r: Table, gone: set<Id>)
    requires Tidy(r)
    ensures Tidy(Kept(r, gone))
  {
  }

  lemma KeptAgain(r: Table, a: set<Id>, x: Id)
    ensures Kept(Kept(r, a), {x}) == Kept(r, a + {x})
  {
    forall svc | svc in r ensures (r[svc] - a) - {x} == r[svc] - (a + {x}) {
    }
  }

  lemma KeptNothing(r: Table)
    requires Tidy(r)
    ensures Kept(r, {}) == r
  {
    forall svc | svc in r ensures r[svc] - {} == r[svc] {
    }
  }

  /** The registered ids are the ones replaying the log gives. */
  ghost predicate Faithful(r: Table, log: seq<Change>) { Members(r) == Replay({}, AllOf(log)) }

  lemma ReplayOne(log: seq<Change>, c: Change)
    ensures Replay({}, AllOf(log + [c])) ==
      if c.delta.Upsert? then Replay({}, AllOf(log)) + {c.delta.inst.id} else Replay({}, AllOf(log)) - {c.delta.inst.id}
  {
    AllOfConcat(log, [c]);
    OneChange(c, c.id);
    ReplayConcat({}, AllOf(log), [c.delta]);
    assert [c.delta][1..] == [];
  }

  lemma {:induction false} ReplayOfflines(log: seq<Change>, gone: seq<Instance>)
    ensures Replay({}, AllOf(log + Offlines(gone))) == Replay({}, AllOf(log)) - IdsOf(gone)
    decreases |gone|
  {
    if gone == [] {
      assert log + Offlines(gone) == log;
    } else {
      var most, last := gone[..|gone| - 1], gone[|gone| - 1];
      assert gone == most + [last];
      OfflinesSnoc(most, last);
      ReplayOfflines(log, most);
      var c := Change(last.id, Offline(last));
      assert log + Offlines(gone) == log + Offlines(most) + [c];
      ReplayOne(log + Offlines(most), c);
    }
  }

  lemma OfflinesSnoc(gone: seq<Instance>, inst: Instance)
    ensures Offlines(gone + [inst]) == Offlines(gone) + [Change(inst.id, Offline(inst))]
    ensures IdsOf(gone + [inst]) == IdsOf(gone) + {inst.id}
  {
    forall x ensures x in IdsOf(gone + [inst]) <==> x in IdsOf(gone) + {inst.id} {
      if x in IdsOf(gone) {
        var i :| 0 <= i < |gone| && gone[i].id == x;
        assert (gone + [inst])[i].id == x;
      }
      if x == inst.id {
        assert (gone + [inst])[|gone|].id == x;
      }
    }
  }

  function CountOf(d: seq<Delta>, x: Id): nat {
    if d == [] then 0 else (if d[0].inst.id == x then 1 else 0) + CountOf(d[1..], x)
  }

  /** A cleanup queues one OFFLINE per removed id to every other subscriber, none to itself. */
  lemma {:induction false} OneOfflineEach(gone: seq<Instance>, s: Id, x: Id)
    requires DistinctIds(gone)
    ensures CountOf(Others(Offlines(gone), s), x) == if x in IdsOf(gone) && x != s then 1 else 0
    ensures forall d :: d in Others(Offlines(gone), s) ==> d.Offline?
    decreases |gone|
  {
    if gone != [] {
      var rest := gone[1..];
      var l := Offlines(gone);
      assert l[1..] == Offlines(rest);
      OneOfflineEach(rest, s, x);
      IdsOfRest(gone, x);
      if gone[0].id == s {
        assert Others(l, s) == Others(Offlines(rest), s);
      } else {
        assert Others(l, s)[1..] == Others(Offlines(rest), s);
      }
    }
  }

  lemma IdsOfRest(gone: seq<Instance>, x: Id)
    requires gone != [] && DistinctIds(gone)
    ensures x in IdsOf(gone) <==> x == gone[0].id || x in IdsOf(gone[1..])
    ensures gone[0].id !in IdsOf(gone[1..])
  {
    var rest := gone[1..];
    if x in IdsOf(gone) && x != gone[0].id {
      var i :| 0 <= i < |gone| && gone[i].id == x;
      assert rest[i - 1].id == x;
    }
    if x in IdsOf(rest) {
      var i :| 0 <= i < |rest| && rest[i].id == x;
      assert gone[i + 1].id == x;
    }
    assert gone[0].id in IdsOf(gone);
  }

  class ServiceRegistry {
    var registry: Table
    var expirations: map<Id, int>
    var deltaMap: map<Id, seq<Delta>>
    ghost var log: seq<Change>
    ghost var since: map<Id, nat>
    ghost var popped: map<Id, seq<Delta>>

    ghost function S(): Subs
      reads this
    {
      Subs(log, since, popped, deltaMap)
    }

    ghost predicate Valid()
      reads this
    {
      Tidy(registry) && SubsOk(S())
    }

    /** Deadlines are kept for exactly the registered ids. */
    ghost predicate Timed()
      reads this
    {
      expirations.Keys == Members(registry)
    }

    constructor ()
      ensures Valid() && Timed() && OneService(registry) && Faithful(registry, log)
      ensures registry == map[] && expirations == map[] && deltaMap == map[] && log == []
    {
      registry, expirations, deltaMap := map[], map[], map[];
      log, since, popped := [], map[], map[];
    }

    /** Called with the lock held. */
    method PushDeltaToOthers(changed: Id, entry: Delta)
      requires SubsOk(S()) && entry.inst.id == changed
      modifies `deltaMap, `log
      ensures SubsOk(S()) && S() == old(Logged(S(), Change(changed, entry)))
    {
      hide SubsOk;
      LoggedOk(S(), Change(changed, entry));
      var left := deltaMap.Keys;
      while left != {}
        invariant left <= deltaMap.Keys == old(deltaMap.Keys)
        invariant log == old(log)
        invariant forall s :: s in deltaMap ==>
          deltaMap[s] == if s in left then old(deltaMap[s]) else old(Pushed(deltaMap, Change(changed, entry))[s])
        decreases left
      {
        var s :| s in left;
        left := left - {s};
        if s != changed {
          deltaMap := deltaMap[s := deltaMap[s] + [entry]];
        }
      }
      assert deltaMap == old(Pushed(deltaMap, Change(changed, entry)));
      log := log + [Change(changed, entry)];
    }

    /** What the log says stays true exactly when an id that is new to the table comes in as a
        new instance. */
    method RegisterInstance(inst: Instance, ttl: int, isNew: bool, now: int)
      requires Valid()
      modifies this
      ensures Valid()
      ensures registry == Filed(old(registry), inst) && expirations == old(expirations)[inst.id := now + ttl]
      ensures S() == if isNew then old(Logged(S(), Change(inst.id, Upsert(inst)))) else old(S())
      ensures old(Faithful(registry, log)) ==>
        (Faithful(registry, log) <==> isNew || inst.id in Members(old(registry)))
      ensures old(Timed()) ==> Timed()
      ensures old(OneService(registry)) ==>
        (OneService(registry) <==> forall svc :: svc in old(registry) && inst.id in old(registry)[svc] ==> svc == inst.svc)
    {
      hide SubsOk, Tidy, Members, OneService;
      FiledFacts(registry, inst);
      var m := if inst.svc in registry then registry[inst.svc] else map[];
      registry := registry[inst.svc := m[inst.id := inst]];
      expirations := expirations[inst.id := now + ttl];
      if isNew {
        ReplayOne(log, Change(inst.id, Upsert(inst)));
        PushDeltaToOthers(inst.id, Upsert(inst));
      }
    }

    /** Unknown instances are ignored.  For a known one the deadlines and the log keep agreeing
        with the table exactly when no other service has the id. */
    method DeregisterInstance(svc: string, id: Id)
      requires Valid()
      modifies this
      ensures Valid()
      ensures !(svc in old(registry) && id in old(registry)[svc]) ==>
        registry == old(registry) && expirations == old(expirations) && S() == old(S())
      ensures svc in old(registry) && id in old(registry)[svc] ==>
        && registry == Unfiled(old(registry), svc, id) && expirations == old(expirations) - {id}
        && S() == Logged(old(S()), Change(id, Offline(old(registry)[svc][id])))
      ensures svc in old(registry) && id in old(registry)[svc] ==>
        && (old(Timed()) ==> (Timed() <==> OnlyUnder(old(registry), svc, id)))
        && (old(Faithful(registry, log)) ==> (Faithful(registry, log) <==> OnlyUnder(old(registry), svc, id)))
      ensures old(OneService(registry)) ==> OneService(registry)
    {
      hide SubsOk, Tidy, Members, OneService, Unfiled, OnlyUnder;
      if svc !in registry || id !in registry[svc] {
        return;
      }
      ghost var r := registry;
      var inst := registry[svc][id];
      UnfiledFacts(r, svc, id);
      UnfiledIs(r, svc, id);
      var m := registry[svc] - {id};
      expirations := expirations - {id};
      registry := if m == map[] then registry - {svc} else registry[svc := m];
      ReplayOne(log, Change(id, Offline(inst)));
      PushDeltaToOthers(id, Offline(inst));
    }

    /** Takes an id out of every service; entries that become empty go too. */
    method RemoveEverywhere(id: Id) returns (found: Option<Instance>)
      requires Tidy(registry)
      modifies `registry
      ensures registry == Kept(old(registry), {id})
      ensures found.Some? <==> id in Members(old(registry))
      ensures found.Some? ==> found.value.id == id
    {
      hide Partial, Unfiled, Members;
      found := None;
      ghost var r := registry;
      var left := registry.Keys;
      PartialEnds(r, id);
      while left != {}
        invariant left <= r.Keys && registry == Partial(r, left, id)
        invariant found.Some? <==> exists svc :: svc in r && svc !in left && id in r[svc]
        invariant found.Some? ==> found.value.id == id
        decreases left
      {
        var svc :| svc in left;
        PartialStep(r, left, svc, id);
        left := left - {svc};
        var m := registry[svc];
        if id in m {
          found := Some(m[id]);
          m := m - {id};
          if m == map[] {
            registry := registry - {svc};
          } else {
            registry := registry[svc := m];
          }
        }
      }
    }

    /** Removes what has expired: exactly the ids whose deadline lies before `now`. */
    method CleanupExpired(now: int) returns (ghost gone: seq<Instance>)
      requires Valid()
      modifies this
      ensures Valid()
      ensures var late := Late(old(expirations), now);
        && registry == Kept(old(registry), late) && expirations == old(expirations) - late
        && DistinctIds(gone) && IdsOf(gone) == late * Members(old(registry))
      ensures log == old(log) + Offlines(gone)
      ensures since == old(since) && popped == old(popped) && deltaMap.Keys == old(deltaMap).Keys
      ensures forall s :: s in deltaMap ==> deltaMap[s] == old(deltaMap)[s] + Others(Offlines(gone), s)
      ensures old(Timed()) ==> Timed()
      ensures old(OneService(registry)) ==> OneService(registry)
      ensures old(Faithful(registry, log)) ==> Faithful(registry, log)
    {
      hide SubsOk, Tidy, Members, OneService, Kept, Late, DistinctIds, Delivered;
      gone := [];
      var removeIds := set id | id in expirations && expirations[id] < now;
      LateIs(expirations, now);
      ghost var done: set<Id> := {};
      ghost var r := registry;
      CleanupStart(S(), r);
      while removeIds != {}
        invariant Valid() && removeIds + done == Late(old(expirations), now) && removeIds !! done
        invariant registry == Kept(r, done) && expirations == old(expirations) - done
        invariant DistinctIds(gone) && IdsOf(gone) == done * Members(r)
        invariant Appended(old(S()), S(), gone)
        invariant old(Faithful(registry, log)) ==> Faithful(registry, log)
        decreases removeIds
      {
        var id :| id in removeIds;
        removeIds := removeIds - {id};
        CleanupStep(r, done, id, gone);
        KeptTidy(registry, {id});
        var found := RemoveEverywhere(id);
        expirations := expirations - {id};
        done := done + {id};
        if found.Some? {
          ReplayOne(log, Change(id, Offline(found.value)));
          AppendedStep(old(S()), S(), gone, found.value);
          GoneStep(gone, found.value, done - {id}, r);
          PushDeltaToOthers(id, Offline(found.value));
          gone := gone + [found.value];
        }
      }
      CleanupEnd(r, done, old(expirations));
      AppendedIs(old(S()), S(), gone);
    }

    method Subscribe(s: Id)
      requires Valid()
      modifies this
      ensures Valid() && registry == old(registry) && expirations == old(expirations) && log == old(log)
      ensures s in deltaMap
      ensures s in old(deltaMap) ==> S() == old(S())
      ensures s !in old(deltaMap) ==>
        deltaMap == old(deltaMap)[s := []] && since == old(since)[s := |log|] && popped == old(popped)[s := []]
    {
      if s !in deltaMap {
        ghost var b := S();
        deltaMap := deltaMap[s := []];
        since, popped := since[s := |log|], popped[s := []];
        forall u | u in deltaMap ensures Delivered(S(), u) {
          assert u != s ==> Delivered(b, u);
        }
      }
    }

    method Unsubscribe(s: Id)
      requires Valid()
      modifies this
      ensures Valid() && registry == old(registry) && expirations == old(expirations) && log == old(log)
      ensures deltaMap == old(deltaMap) - {s} && since == old(since) - {s} && popped == old(popped) - {s}
    {
      ghost var b := S();
      deltaMap := deltaMap - {s};
      since, popped := since - {s}, popped - {s};
      forall u | u in deltaMap ensures Delivered(S(), u) {
        assert Delivered(b, u);
      }
    }

    /** Takes and empties the queue of a subscriber. */
    method PopDeltas(s: Id) returns (out: seq<Delta>)
      requires Valid()
      modifies this
      ensures Valid() && registry == old(registry) && expirations == old(expirations) && log == old(log)
      ensures since == old(since)
      ensures s !in old(deltaMap) ==> out == [] && S() == old(S())
      ensures s in old(deltaMap) ==>
        out == old(deltaMap)[s] && deltaMap == old(deltaMap)[s := []]
        && s in old(popped) && popped == old(popped)[s := old(popped)[s] + out]
    {
      hide SubsOk;
      if s !in deltaMap {
        return [];
      }
      DrainedOk(S(), s);
      out := deltaMap[s];
      deltaMap := deltaMap[s := []];
      popped := popped[s := popped[s] + out];
    }

    /** At any moment: replaying what a subscriber has popped and still has queued over the
        registry at its subscription gives the registry now, up to itself. */
    lemma ReplayConverges(s: Id)
      requires Valid() && Faithful(registry, log) && s in deltaMap
      ensures s in since && s in popped && since[s] <= |log|
      ensures Replay(At(log, since[s]) - {s}, popped[s] + deltaMap[s]) == Members(registry) - {s}
    {
      hide Members, Tidy;
      assert Delivered(S(), s);
      SubscriptionThenDeltas(log, since[s], s);
      assert log[..|log|] == log;
    }
  }

  /** RemoveEverywhere with the services in `left` still to come. */
  function Partial(r: Table, left: set<string>, id: Id): Table {
    map svc | svc in r && (svc in left || r[svc] - {id} != map[]) :: if svc in left then r[svc] else r[svc] - {id}
  }

  lemma PartialEnds(r: Table, id: Id)
    ensures Partial(r, r.Keys, id) == r && Partial(r, {}, id) == Kept(r, {id})
    ensures id in Members(r) <==> exists svc :: svc in r && id in r[svc]
  {
  }

  lemma PartialStep(r: Table, left: set<string>, svc: string, id: Id)
    requires Tidy(r) && svc in left && left <= r.Keys
    ensures svc in Partial(r, left, id) && Partial(r, left, id)[svc] == r[svc]
    ensures id in r[svc] ==> r[svc][id].id == id
    ensures var p := Partial(r, left, id);
      Partial(r, left - {svc}, id) ==
        if id !in r[svc] then p
        else if r[svc] - {id} == map[] then p - {svc}
        else p[svc := r[svc] - {id}]
  {
    assert id !in r[svc] ==> r[svc] - {id} == r[svc];
  }

  /** Registered as new, expired, renewed: the id is back in the table, and no log entry says so. */
  method SilentReturn(inst: Instance) returns (reg: ServiceRegistry)
    ensures reg.Valid() && inst.id in Members(reg.registry) && !Faithful(reg.registry, reg.log)
  {
    hide SubsOk, Tidy, Members, OneService, Kept, Filed;
    reg := new ServiceRegistry();
    reg.RegisterInstance(inst, 30, true, 0);
    FiledMembers(map[], inst);
    NoMembers();
    OneServiceOfOne(inst);
    var _ := reg.CleanupExpired(31);
    FiledMembers(reg.registry, inst);
    reg.RegisterInstance(inst, 30, false, 31);
  }

  /** Registered under two services and deregistered from one: the id stays in the table with
      no deadline, and a cleanup at any time leaves it there. */
  method TwoServicesLoseDeadline(x: Instance, y: Instance, ttl: int, now: int, later: int) returns (reg: ServiceRegistry)
    requires x.id == y.id && x.svc != y.svc
    ensures reg.Valid() && x.id in Members(reg.registry) && x.id !in reg.expirations
    ensures reg.registry == Filed(map[], x)
  {
    hide SubsOk, Tidy, Members, OneService, Late, Kept;
    reg := new ServiceRegistry();
    reg.RegisterInstance(x, ttl, true, now);
    reg.RegisterInstance(y, ttl, true, now);
    FiledMembers(map[], x);
    assert Unfiled(reg.registry, y.svc, y.id) == Filed(map[], x);
    reg.DeregisterInstance(y.svc, y.id);
    LateIs(reg.expirations, later);
    assert reg.expirations == map[] && Late(reg.expirations, later) == {};
    KeptNothing(reg.registry);
    var _ := reg.CleanupExpired(later);
  }

  lemma NoMembers()
    ensures Members(map[]) == {}
  {
  }

  lemma OneServiceOfOne(inst: Instance)
    ensures OneService(Filed(map[], inst))
  {
  }

  // ---- lemmas for the operations ------------------------------------------------------

  function Late(expirations: map<Id, int>, now: int): set<Id> { set id | id in expirations && expirations[id] < now }

  lemma LateIs(expirations: map<Id, int>, now: int)
    ensures Late(expirations, now) == set id | id in expirations && expirations[id] < now
    ensures Late(expirations, now) <= expirations.Keys
  {
  }

  lemma FiledTidy(r: Table, inst: Instance)
    requires Tidy(r)
    ensures Tidy(Filed(r, inst))
  {
    hide Members, OneService;
    var u := Filed(r, inst);
    assert inst.id in u[inst.svc];
    forall svc | svc in u ensures u[svc] != map[] {
      assert svc != inst.svc ==> u[svc] == r[svc];
    }
  }

  lemma FiledFacts(r: Table, inst: Instance)
    requires Tidy(r)
    ensures Tidy(Filed(r, inst)) && Members(Filed(r, inst)) == Members(r) + {inst.id}
    ensures OneService(r) ==>
      (OneService(Filed(r, inst)) <==> forall svc :: svc in r && inst.id in r[svc] ==> svc == inst.svc)
  {
    hide Tidy, Members;
    FiledMembers(r, inst);
    FiledTidy(r, inst);
    var u := Filed(r, inst);
    if OneService(r) && OneService(u) {
      forall svc | svc in r && inst.id in r[svc] ensures svc == inst.svc {
        assert svc in u && inst.id in u[svc] && inst.id in u[inst.svc];
      }
    }
  }

  lemma UnfiledFacts(r: Table, svc: string, id: Id)
    requires Tidy(r) && svc in r && id in r[svc]
    ensures Tidy(Unfiled(r, svc, id)) && r[svc][id].id == id
    ensures Members(Unfiled(r, svc, id)) == if OnlyUnder(r, svc, id) then Members(r) - {id} else Members(r)
    ensures id in Members(r) && (OneService(r) ==> OnlyUnder(r, svc, id) && OneService(Unfiled(r, svc, id)))
  {
    hide Members;
    UnfiledTidy(r, svc, id);
    UnfiledLeaves(r, svc, id);
  }

  lemma UnfiledIs(r: Table, svc: string, id: Id)
    requires svc in r
    ensures Unfiled(r, svc, id) == if r[svc] - {id} == map[] then r - {svc} else r[svc := r[svc] - {id}]
  {
  }

  /** The subscribers' state after the offline entries of `gone`. */
  ghost predicate Appended(b: Subs, b': Subs, gone: seq<Instance>) {
    && b'.log == b.log + Offlines(gone) && b'.since == b.since && b'.popped == b.popped
    && b'.queues.Keys == b.queues.Keys
    && forall s :: s in b.queues ==> s in b'.queues && b'.queues[s] == b.queues[s] + Others(Offlines(gone), s)
  }

  lemma AppendedIs(b: Subs, b': Subs, gone: seq<Instance>)
    requires Appended(b, b', gone)
    ensures b'.log == b.log + Offlines(gone) && b'.since == b.since && b'.popped == b.popped
    ensures b'.queues.Keys == b.queues.Keys
    ensures forall s :: s in b'.queues ==> b'.queues[s] == b.queues[s] + Others(Offlines(gone), s)
  {
  }

  lemma AppendedStep(b: Subs, b': Subs, gone: seq<Instance>, inst: Instance)
    requires Appended(b, b', gone)
    ensures Appended(b, Logged(b', Change(inst.id, Offline(inst))), gone + [inst])
  {
    OfflinesSnoc(gone, inst);
    var c := Change(inst.id, Offline(inst));
    forall s | s in b.queues ensures Pushed(b'.queues, c)[s] == b.queues[s] + Others(Offlines(gone + [inst]), s) {
      OthersConcat(Offlines(gone), [c], s);
      OneChange(c, s);
    }
  }

  lemma CleanupStart(b: Subs, r: Table)
    requires Tidy(r)
    ensures Appended(b, b, []) && Kept(r, {}) == r && DistinctIds([])
  {
    KeptNothing(r);
  }

  lemma CleanupStep(r: Table, done: set<Id>, id: Id, gone: seq<Instance>)
    requires id !in done
    ensures Kept(Kept(r, done), {id}) == Kept(r, done + {id})
    ensures id in Members(Kept(r, done)) <==> id in Members(r)
    ensures Members(Kept(r, done + {id})) == Members(Kept(r, done)) - {id}
    ensures id !in Members(r) ==> (done + {id}) * Members(r) == done * Members(r)
  {
    KeptAgain(r, done, id);
    KeptMembers(r, done);
    KeptMembers(r, done + {id});
  }

  lemma GoneStep(gone: seq<Instance>, inst: Instance, done: set<Id>, r: Table)
    requires DistinctIds(gone) && IdsOf(gone) == done * Members(r) && inst.id !in done && inst.id in Members(r)
    ensures DistinctIds(gone + [inst]) && IdsOf(gone + [inst]) == (done + {inst.id}) * Members(r)
  {
    OfflinesSnoc(gone, inst);
    var all := gone + [inst];
    forall i, j | 0 <= i < j < |all| ensures all[i].id != all[j].id {
      assert i < |gone| && gone[i].id in IdsOf(gone);
    }
  }

  lemma CleanupEnd(r: Table, late: set<Id>, expirations: map<Id, int>)
    ensures expirations.Keys == Members(r) ==> (expirations - late).Keys == Members(Kept(r, late))
    ensures OneService(r) ==> OneService(Kept(r, late))
  {
    KeptMembers(r, late);
  }
}
