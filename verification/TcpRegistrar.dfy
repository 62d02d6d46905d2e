// The center's handlers for registration, heartbeats and closed connections
// (server/center/TcpRegistrar.cpp): the order in which they drive the registry.
module TcpRegistrar {
  import opened RegistryLog
  import opened Registry

  type Fd = nat

  const TTL: int := 15

  /** What a heartbeat is answered with. */
  datatype Reply = Nothing | Full(table: Table) | Changes(deltas: seq<Delta>)

  predicate Known(r: Table, inst: Instance) { inst.svc in r && inst.id in r[inst.svc] }

  class Registrar {
    const reg: ServiceRegistry
    var fdToId: map<Fd, Id>
    var fdToInst: map<Fd, Instance>
    var gotFull: set<Fd>

    constructor (r: ServiceRegistry)
      ensures reg == r && fdToId == map[] && fdToInst == map[] && gotFull == {}
    {
      reg, fdToId, fdToInst, gotFull := r, map[], map[], {};
    }

    /** The heartbeat of `id` on fd takes the cached path although `id` is not registered. */
    ghost predicate Stale(fd: Fd, id: Id)
      reads this, reg
    {
      Cached(fd, id) && id !in Members(reg.registry)
    }

    /** The heartbeat of `id` on fd renews what is cached for the connection. */
    predicate Cached(fd: Fd, id: Id)
      reads this
    {
      fd in fdToInst && fdToInst[fd].id == id
    }

    /** It is neither cached nor registered, and so registers anew. */
    ghost predicate Rejoins(fd: Fd, id: Id)
      reads this, reg
    {
      !Cached(fd, id) && id !in Members(reg.registry)
    }

    /** Subscribe first, then register. */
    method OnRegist(fd: Fd, inst: Instance, now: int)
      requires reg.Valid()
      modifies this, reg
      ensures reg.Valid() && inst.id in reg.deltaMap && Members(reg.registry) == Members(old(reg.registry)) + {inst.id}
      ensures fdToInst == old(fdToInst)[fd := inst] && fdToId == old(fdToId)[fd := inst.id] && gotFull == old(gotFull)
      ensures reg.registry == Filed(old(reg.registry), inst) && reg.expirations == old(reg.expirations)[inst.id := now + TTL]
      ensures reg.log == old(reg.log) + [Change(inst.id, Upsert(inst))]
      ensures old(Faithful(reg.registry, reg.log)) ==> Faithful(reg.registry, reg.log)
    {
      hide Members, Filed, Tidy, SubsOk, OneService, Replay;
      FiledMembers(reg.registry, inst);
      reg.Subscribe(inst.id);
      reg.RegisterInstance(inst, TTL, true, now);
      fdToId, fdToInst := fdToId[fd := inst.id], fdToInst[fd := inst];
    }

    /** A closed connection takes its instance out of the table and drops its queue.  The log
        stays true exactly when no other service has the id. */
    method OnClose(fd: Fd)
      requires reg.Valid()
      modifies this, reg
      ensures reg.Valid() && fdToId == old(fdToId) - {fd}
      ensures fd !in old(fdToId) || fd !in old(fdToInst) ==>
        reg.registry == old(reg.registry) && reg.expirations == old(reg.expirations) && reg.S() == old(reg.S())
      ensures fd !in old(fdToId) ==> fdToInst == old(fdToInst) && gotFull == old(gotFull)
      ensures fd in old(fdToId) ==> fdToInst == old(fdToInst) - {fd} && gotFull == old(gotFull) - {fd}
      ensures fd in old(fdToId) && fd in old(fdToInst) ==>
        var inst, r := old(fdToInst)[fd], old(reg.registry);
        && reg.registry == Unfiled(r, inst.svc, inst.id)
        && !(inst.svc in reg.registry && inst.id in reg.registry[inst.svc])
        && reg.deltaMap.Keys == old(reg.deltaMap).Keys - {inst.id}
        && reg.log == old(reg.log) + (if Known(r, inst) then [Change(inst.id, Offline(r[inst.svc][inst.id]))] else [])
        && (old(Faithful(reg.registry, reg.log)) ==>
              (Faithful(reg.registry, reg.log) <==> !Known(r, inst) || OnlyUnder(r, inst.svc, inst.id)))
    {
      hide Members, Tidy, SubsOk, OneService, OnlyUnder;
      if fd in fdToId {
        if fd in fdToInst {
          var inst := fdToInst[fd];
          UnfiledAbsent(reg.registry, inst);
          reg.DeregisterInstance(inst.svc, inst.id);
          reg.Unsubscribe(inst.id);
        }
        fdToId, fdToInst, gotFull := fdToId - {fd}, fdToInst - {fd}, gotFull - {fd};
      }
    }

    /** The renewal part of a heartbeat.  The log stays true exactly when the heartbeat does
        not renew, from the cache, an instance that has expired in the meantime. */
    method Renew(fd: Fd, info: Instance, now: int)
      requires reg.Valid()
      modifies this, reg
      ensures reg.Valid()
      ensures reg.expirations == old(reg.expirations)[info.id := now + TTL]
      ensures reg.log == old(reg.log) + (if old(Rejoins(fd, info.id)) then [Change(info.id, Upsert(info))] else [])
      ensures gotFull == if old(Rejoins(fd, info.id)) then old(gotFull) - {fd} else old(gotFull)
      ensures fd in fdToInst && fdToInst[fd].id == info.id && reg.registry == Filed(old(reg.registry), fdToInst[fd])
      ensures old(Cached(fd, info.id)) ==> fdToInst == old(fdToInst)[fd := old(fdToInst)[fd].(info := info.info)]
      ensures old(!Cached(fd, info.id) && info.id in Members(reg.registry)) ==>
        && fdToInst == old(fdToInst)[fd := fdToInst[fd]] && reg.registry == old(reg.registry)
      ensures old(Rejoins(fd, info.id)) ==> fdToInst == old(fdToInst)[fd := info] && fdToId == old(fdToId)[fd := info.id]
      ensures !old(Rejoins(fd, info.id)) ==> fdToId == old(fdToId)
      ensures info.id !in old(reg.deltaMap) && info.id in reg.deltaMap ==> reg.deltaMap[info.id] == []
      ensures info.id in old(reg.deltaMap) ==> info.id in reg.deltaMap && reg.deltaMap[info.id] == old(reg.deltaMap)[info.id]
      ensures Members(reg.registry) == Members(old(reg.registry)) + {info.id}
      ensures old(Faithful(reg.registry, reg.log)) ==>
        (Faithful(reg.registry, reg.log) <==> !old(Stale(fd, info.id)))
      ensures old(Faithful(reg.registry, reg.log)) ==>
        && Members(reg.registry) == Replay({}, AllOf(reg.log)) + {info.id}
        && (info.id in Replay({}, AllOf(reg.log)) <==> !old(Stale(fd, info.id)))
    {
      hide Members, Filed, Tidy, SubsOk;
      if fd in fdToInst && fdToInst[fd].id == info.id {
        var inst := fdToInst[fd].(info := info.info);
        fdToInst := fdToInst[fd := inst];
        FiledMembers(reg.registry, inst);
        reg.RegisterInstance(inst, TTL, false, now);
      } else {
        MembersIs(reg.registry, info.id);
        if svc :| svc in reg.registry && info.id in reg.registry[svc] {
          var inst := reg.registry[svc][info.id];
          TidyId(reg.registry, svc, info.id);
          FiledAgain(reg.registry, svc, info.id);
          FiledMembers(reg.registry, inst);
          reg.RegisterInstance(inst, TTL, false, now);
          fdToInst := fdToInst[fd := inst];
        } else {
          FiledMembers(reg.registry, info);
          reg.Subscribe(info.id);
          reg.RegisterInstance(info, TTL, true, now);
          fdToId, fdToInst := fdToId[fd := info.id], fdToInst[fd := info];
          gotFull := gotFull - {fd};
        }
      }
    }

    /** The queue of the id is taken and sent; if it is empty, the whole table is, once. */
    method Answer(fd: Fd, id: Id) returns (reply: Reply)
      requires reg.Valid()
      modifies this`gotFull, reg
      ensures reg.Valid() && reg.registry == old(reg.registry) && reg.expirations == old(reg.expirations)
      ensures reg.log == old(reg.log) && reg.deltaMap.Keys == old(reg.deltaMap).Keys
      ensures id in reg.deltaMap ==> reg.deltaMap[id] == []
      ensures var queue := if id in old(reg.deltaMap) then old(reg.deltaMap)[id] else [];
        if queue != [] then reply == Changes(queue) && gotFull == old(gotFull)
        else if fd in old(gotFull) then reply == Nothing && gotFull == old(gotFull)
        else reply == Full(reg.registry) && gotFull == old(gotFull) + {fd}
    {
      hide Tidy, SubsOk;
      var deltas := reg.PopDeltas(id);
      if deltas != [] {
        reply := Changes(deltas);
      } else if fd !in gotFull {
        reply := Full(reg.registry);
        gotFull := gotFull + {fd};
      } else {
        reply := Nothing;
      }
    }

    /** A heartbeat: renew, take the queue, answer with it or, on an empty queue the first
        time, with the whole table; then clean up, at clock reading `later`.  What a full answer
        leaves in the queue leads from it to the registry as it is now. */
    method OnUpdateServiceStatus(fd: Fd, info: Instance, now: int, later: int) returns (reply: Reply)
      requires reg.Valid() && now <= later
      modifies this, reg
      ensures reg.Valid()
      ensures old(Faithful(reg.registry, reg.log)) ==>
        (Faithful(reg.registry, reg.log) <==> !(old(Stale(fd, info.id)) && later <= now + TTL))
      ensures old(Faithful(reg.registry, reg.log)) && reply.Full? && info.id in reg.deltaMap ==>
        Replay(Members(reply.table) - {info.id}, reg.deltaMap[info.id]) == Members(reg.registry) - {info.id}
      ensures fd in fdToInst && fdToInst[fd].id == info.id
      ensures var late := Late(old(reg.expirations)[info.id := now + TTL], later);
        && reg.registry == Kept(Filed(old(reg.registry), fdToInst[fd]), late)
        && reg.expirations == old(reg.expirations)[info.id := now + TTL] - late
      ensures var queue := if info.id in old(reg.deltaMap) then old(reg.deltaMap)[info.id] else [];
        var had := fd in old(gotFull) && !old(Rejoins(fd, info.id));
        && reply == (if queue != [] then Changes(queue)
                     else if had then Nothing
                     else Full(Filed(old(reg.registry), fdToInst[fd])))
        && gotFull - {fd} == old(gotFull) - {fd} && (fd in gotFull <==> had || queue == [])
      ensures info.id in Members(reg.registry) <==> later <= now + TTL
      ensures info.id in old(reg.deltaMap) && old(reg.deltaMap)[info.id] != [] ==>
        reply == Changes(old(reg.deltaMap)[info.id])
      ensures info.id in old(reg.deltaMap) && old(reg.deltaMap)[info.id] == [] ==> !reply.Changes?
      ensures info.id in old(reg.deltaMap) && old(reg.deltaMap)[info.id] == [] && fd !in old(gotFull) ==>
        reply.Full? && Members(reply.table) == Members(old(reg.registry)) + {info.id}
    {
      hide Members, Tidy, SubsOk, Kept, DistinctIds, Others, Late, Replay, Filed, Offlines, IdsOf, Cached, Rejoins, AllOf, Delivered;
      Renew(fd, info, now);
      ghost var r, log := reg.registry, reg.log;
      reply := Answer(fd, info.id);
      LateIff(reg.expirations, info.id, later);
      ghost var late := Late(reg.expirations, later);
      ghost var gone := reg.CleanupExpired(later);
      KeptMembers(r, late);
      ReplayOfflines(log, gone);
      if old(Faithful(reg.registry, reg.log)) {
        CleanedUp(r, log, gone, late, info.id);
        LogHonest(reg.S());
        AfterSnapshot(log, gone, info.id, reg.log);
      }
    }
  }

  // ---- lemmas -------------------------------------------------------------------------

  lemma UnfiledAbsent(r: Table, inst: Instance)
    requires Tidy(r)
    ensures !Known(r, inst) ==> Unfiled(r, inst.svc, inst.id) == r
  {
    if inst.svc in r && inst.id !in r[inst.svc] {
      assert r[inst.svc] - {inst.id} == r[inst.svc];
    }
  }

  lemma MembersIs(r: Table, id: Id)
    ensures id in Members(r) <==> exists svc :: svc in r && id in r[svc]
  {
  }

  lemma LogHonest(b: Subs)
    requires SubsOk(b)
    ensures forall c :: c in b.log ==> Honest(c)
  {
  }

  /** Filing an instance that is there changes nothing. */
  lemma FiledAgain(r: Table, svc: string, id: Id)
    requires Tidy(r) && svc in r && id in r[svc]
    ensures Filed(r, r[svc][id]) == r
  {
    assert r[svc][id := r[svc][id]] == r[svc];
  }

  lemma TidyId(r: Table, svc: string, id: Id)
    requires Tidy(r) && svc in r && id in r[svc]
    ensures r[svc][id].id == id && id in Members(r)
  {
  }

  lemma LateIff(expirations: map<Id, int>, id: Id, now: int)
    requires id in expirations
    ensures id in Late(expirations, now) <==> expirations[id] < now
  {
  }

  /** A cleanup mends a table that holds one id more than its log says exactly when that id is
      late. */
  lemma CleanedUp(r: Table, log: seq<Change>, gone: seq<Instance>, late: set<Id>, id: Id)
    requires Members(Kept(r, late)) == Members(r) - late && IdsOf(gone) == late * Members(r)
    requires Replay({}, AllOf(log + Offlines(gone))) == Replay({}, AllOf(log)) - IdsOf(gone)
    requires Members(r) == Replay({}, AllOf(log)) + {id}
    ensures Faithful(Kept(r, late), log + Offlines(gone)) <==> id in Replay({}, AllOf(log)) || id in late
    ensures Members(Kept(r, late)) - {id} == Replay({}, AllOf(log + Offlines(gone))) - {id}
    ensures Members(r) - {id} == Replay({}, AllOf(log)) - {id}
    ensures id in Members(Kept(r, late)) <==> id !in late
  {
    hide Kept, Members, Replay;
    var m, l := Members(r), Replay({}, AllOf(log));
    assert m - late - {id} == l - late * m - {id};
    if id in l || id in late {
      assert m - late == l - late * m;
    } else {
      assert id in m - late && id !in l - late * m;
    }
  }

  /** The entries logged after a snapshot lead from it to the end of the log. */
  lemma AfterSnapshot(log: seq<Change>, gone: seq<Instance>, s: Id, whole: seq<Change>)
    requires whole == log + Offlines(gone) && forall c :: c in whole ==> Honest(c)
    ensures Replay(Replay({}, AllOf(log)) - {s}, [] + Others(Offlines(gone), s)) == Replay({}, AllOf(whole)) - {s}
  {
    hide Others, Replay, AllOf;
    SnapshotThenDeltas(whole, |log|, |log|, s);
    assert whole[..|log|] == log && whole[|log|..] == Offlines(gone) && whole[..|whole|] == whole;
    assert [] + Others(Offlines(gone), s) == Others(Offlines(gone), s);
  }
}
