// Smooth weighted round robin (server/common/LoadBalancer.cpp, SmoothWeightedRRLB).
//
// `select` adds every node's effective weight to its current value, picks a node whose
// current value is largest and takes the total weight off it again.  The theorems are about
// runs of picks over an unchanged instance set, whichever node wins a tie.

/** Sums of integer-valued maps. */
module MapSum {
  ghost function Sum<K>(m: map<K, int>): int
  {
    if m == map[] then 0 else
      var k :| k in m;
      m[k] + Sum(m - {k})
  }

  lemma {:induction false} SumTake<K>(m: map<K, int>, k: K)
    requires k in m
    ensures Sum(m) == m[k] + Sum(m - {k})
    decreases |m|
  {
    var j :| j in m && Sum(m) == m[j] + Sum(m - {j});
    if j != k {
      SumTake(m - {j}, k);
      SumTake(m - {k}, j);
      assert m - {j} - {k} == m - {k} - {j};
    }
  }

  lemma {:induction false} SumUpdate<K>(m: map<K, int>, k: K, v: int)
    requires k in m
    ensures Sum(m[k := v]) == Sum(m) - m[k] + v
  {
    SumTake(m, k);
    SumTake(m[k := v], k);
    assert m[k := v] - {k} == m - {k};
  }

  ghost function Plus<K>(a: map<K, int>, b: map<K, int>): map<K, int>
    requires a.Keys == b.Keys
  {
    map k | k in a :: a[k] + b[k]
  }

  lemma {:induction false} SumPlus<K>(a: map<K, int>, b: map<K, int>)
    requires a.Keys == b.Keys
    ensures Sum(Plus(a, b)) == Sum(a) + Sum(b)
    decreases |a|
  {
    if a != map[] {
      var k :| k in a;
      SumTake(a, k);
      SumTake(b, k);
      SumTake(Plus(a, b), k);
      assert (a - {k}).Keys == a.Keys - {k};
      assert Plus(a, b) - {k} == Plus(a - {k}, b - {k});
      SumPlus(a - {k}, b - {k});
    } else {
      assert b == map[];
    }
  }

  lemma SizeWithout<K>(m: map<K, int>, k: K)
    requires k in m
    ensures |m - {k}| == |m| - 1
  {
    assert (m - {k}).Keys == m.Keys - {k};
  }

  lemma Successor(x: int, n: int)
    ensures x * n == x + x * (n - 1)
  {
  }

  ghost function SumOutside<K>(m: map<K, int>, missing: set<K>): (r: int)
    ensures missing == {} ==> r == Sum(m)
    ensures missing == m.Keys ==> r == 0
  {
    assert missing == {} ==> m - missing == m;
    assert missing == m.Keys ==> m - missing == map[];
    Sum(m - missing)
  }

  /** Taking one key off the set of missing keys adds its value to the sum. */
  lemma {:induction false} SumGrow<K>(m: map<K, int>, missing: set<K>, k: K)
    requires k in missing && missing <= m.Keys
    ensures SumOutside(m, missing - {k}) == SumOutside(m, missing) + m[k]
  {
    SumTake(m - (missing - {k}), k);
    assert m - (missing - {k}) - {k} == m - missing;
  }

  /** Every value at least `lo` bounds the sum from below. */
  lemma {:induction false} SumAtLeast<K>(m: map<K, int>, lo: int)
    requires forall k :: k in m ==> m[k] >= lo
    ensures Sum(m) >= lo * |m|
    decreases |m|
  {
    if m != map[] {
      var k :| k in m;
      SumTake(m, k);
      SumAtLeast(m - {k}, lo);
      SizeWithout(m, k);
      Successor(lo, |m|);
    }
  }

  lemma {:induction false} SumAtMost<K>(m: map<K, int>, hi: int)
    requires forall k :: k in m ==> m[k] <= hi
    ensures Sum(m) <= hi * |m|
    decreases |m|
  {
    if m != map[] {
      var k :| k in m;
      SumTake(m, k);
      SumAtMost(m - {k}, hi);
      SizeWithout(m, k);
      Successor(hi, |m|);
    }
  }

  /** A vanishing sum of non-negative values has only zero terms. */
  lemma {:induction false} ZeroSum<K>(m: map<K, int>)
    requires Sum(m) == 0
    requires forall k :: k in m ==> m[k] >= 0
    ensures forall k :: k in m ==> m[k] == 0
  {
    forall k | k in m ensures m[k] == 0 {
      SumTake(m, k);
      SumAtLeast(m - {k}, 0);
    }
  }
}

module SmoothWeighted {
  import opened Wrappers
  import opened MapSum

  type Id = string
  type Instances = map<Id, nat>  // instance id -> configured weight (uint32)

  datatype Node = Node(weight: nat, current: int, effective: nat)
  type Nodes = map<Id, Node>

  function AtLeastOne(w: nat): nat { if w < 1 then 1 else w }

  // ---- specification ----------------------------------------------------------------

  /** The node table after unknown ids were added and vanished ids removed.
      A known node keeps `current` and `effective`, even when its weight changed. */
  function Refresh(nodes: Nodes, instances: Instances): Nodes {
    map id | id in instances :: RefreshNode(nodes, id, AtLeastOne(instances[id]))
  }

  function RefreshNode(nodes: Nodes, id: Id, w: nat): Node {
    if id in nodes then nodes[id].(weight := w) else Node(w, 0, w)
  }

  function Boost(nodes: Nodes): Nodes {
    map id | id in nodes :: nodes[id].(current := nodes[id].current + nodes[id].effective)
  }

  ghost function Currents(nodes: Nodes): map<Id, int> { map id | id in nodes :: nodes[id].current }
  ghost function Effectives(nodes: Nodes): map<Id, int> { map id | id in nodes :: nodes[id].effective }
  ghost function Total(nodes: Nodes): int { Sum(Effectives(nodes)) }

  predicate IsMax(nodes: Nodes, best: Id) {
    best in nodes && forall id :: id in nodes ==> nodes[id].current <= nodes[best].current
  }

  /** One call of `select`: `best` is some node with the largest boosted value.
      An instance whose id is the empty string counts as "nothing found": it is not charged. */
  ghost predicate IsPick(before: Nodes, instances: Instances, best: Id, after: Nodes) {
    var table := Refresh(before, instances);
    var boosted := Boost(table);
    && IsMax(boosted, best)
    && after == if best == "" then boosted
                else boosted[best := boosted[best].(current := boosted[best].current - Total(table))]
  }

  /** Registration half done: the instances outside `todo` were handled. */
  ghost predicate PartlyRefreshed(before: Nodes, nodes: Nodes, instances: Instances, todo: set<Id>) {
    && nodes.Keys == before.Keys + (instances.Keys - todo)
    && (forall id :: id in instances && id !in todo ==>
          id in nodes && nodes[id] == RefreshNode(before, id, AtLeastOne(instances[id])))
    && (forall id :: id in todo && id in before ==> id in nodes && nodes[id] == before[id])
  }

  lemma RefreshStep(before: Nodes, nodes: Nodes, instances: Instances, todo: set<Id>, id: Id)
    requires PartlyRefreshed(before, nodes, instances, todo) && id in todo && todo <= instances.Keys
    ensures var node := RefreshNode(nodes, id, AtLeastOne(instances[id]));
      && PartlyRefreshed(before, nodes[id := node], instances, todo - {id})
      && node.effective == Refresh(before, instances)[id].effective
  {
  }

  // ---- the balancer -----------------------------------------------------------------

  class Balancer {
    var nodes: Nodes

    constructor ()
      ensures nodes == map[]
    {
      nodes := map[];
    }

    method Touch(id: Id, w: nat)
      modifies this
      ensures nodes == old(nodes)[id := RefreshNode(old(nodes), id, w)]
    {
      if id !in nodes {
        nodes := nodes[id := Node(w, 0, w)];
      } else {
        nodes := nodes[id := nodes[id].(weight := w)];
      }
    }

    /** First loop of select: add or re-weight a node per instance, and add up effective weights. */
    method Register(instances: Instances) returns (total: nat)
      modifies this
      ensures nodes.Keys == old(nodes).Keys + instances.Keys
      ensures forall id :: id in instances ==> nodes[id] == Refresh(old(nodes), instances)[id]
      ensures forall id :: id in instances ==>
        && nodes[id].weight == (if instances[id] == 0 then 1 else instances[id])
        && nodes[id].current == (if id in old(nodes) then old(nodes)[id].current else 0)
        && nodes[id].effective == (if id in old(nodes) then old(nodes)[id].effective else nodes[id].weight)
      ensures total == Total(Refresh(old(nodes), instances))
    {
      ghost var before := nodes;
      ghost var weights := Effectives(Refresh(nodes, instances));
      var todo := instances.Keys;
      total := 0;
      while todo != {}
        invariant todo <= instances.Keys
        invariant PartlyRefreshed(before, nodes, instances, todo)
        invariant total == SumOutside(weights, todo)
        decreases todo
      {
        var id :| id in todo;
        SumGrow(weights, todo, id);
        RefreshStep(before, nodes, instances, todo, id);
        Touch(id, AtLeastOne(instances[id]));
        total := total + nodes[id].effective;
        todo := todo - {id};
      }
    }

    /** Second loop: drop the nodes whose instance is gone. */
    method Prune(instances: Instances)
      modifies this
      ensures nodes == map id | id in old(nodes) && id in instances :: old(nodes)[id]
    {
      var todo := nodes.Keys;
      while todo != {}
        invariant todo <= old(nodes).Keys
        invariant nodes == map id | id in old(nodes) && (id in todo || id in instances) :: old(nodes)[id]
        decreases |todo|
      {
        var id :| id in todo;
        todo := todo - {id};
        if id !in instances {
          nodes := nodes - {id};
        }
      }
    }

    /** Third loop: current += effective_weight. */
    method BoostAll(instances: Instances)
      requires nodes.Keys == instances.Keys
      modifies this
      ensures nodes == Boost(old(nodes))
    {
      var todo := instances.Keys;
      while todo != {}
        invariant todo <= instances.Keys
        invariant nodes.Keys == old(nodes).Keys
        invariant forall id :: id in nodes ==>
          nodes[id] == if id in todo then old(nodes)[id] else Boost(old(nodes))[id]
        decreases |todo|
      {
        var id :| id in todo;
        todo := todo - {id};
        nodes := nodes[id := nodes[id].(current := nodes[id].current + nodes[id].effective)];
      }
    }

    /** Fourth loop: a node with the largest current value, visited in any order. */
    method FindBest() returns (best: Id)
      requires nodes != map[]
      ensures IsMax(nodes, best)
    {
      var todo := nodes.Keys;
      var top: Option<int> := None;
      best := "";
      while todo != {}
        invariant todo <= nodes.Keys
        invariant top.None? ==> todo == nodes.Keys
        invariant top.Some? ==> best in nodes && nodes[best].current == top.value
        invariant top.Some? ==> forall id :: id in nodes && id !in todo ==> nodes[id].current <= top.value
        decreases |todo|
      {
        var id :| id in todo;
        todo := todo - {id};
        if top.None? || nodes[id].current > top.value {
          top := Some(nodes[id].current);
          best := id;
        }
      }
    }

    method Select(instances: Instances) returns (chosen: Option<Id>)
      modifies this
      ensures instances == map[] ==> chosen == None && nodes == old(nodes)
      ensures instances != map[] ==> exists best ::
        && IsPick(old(nodes), instances, best, nodes)
        && chosen == if best == "" then None else Some(best)
    {
      if instances == map[] {
        return None;
      }
      var total := Register(instances);
      Prune(instances);
      ghost var table := Refresh(old(nodes), instances);
      assert nodes == table;
      BoostAll(instances);
      assert exists id :: id in instances;
      var best := FindBest();
      if best == "" {
        assert IsPick(old(nodes), instances, best, nodes);
        return None;
      }
      nodes := nodes[best := nodes[best].(current := nodes[best].current - total)];
      assert IsPick(old(nodes), instances, best, nodes);
      return Some(best);
    }
  }

  // ---- one pick ---------------------------------------------------------------------

  lemma RefreshIsStable(before: Nodes, instances: Instances, best: Id, after: Nodes)
    requires IsPick(before, instances, best, after)
    ensures Refresh(after, instances) == after
    ensures Effectives(after) == Effectives(Refresh(before, instances))
  {
  }

  lemma {:induction false} BoostedSum(nodes: Nodes)
    ensures Sum(Currents(Boost(nodes))) == Sum(Currents(nodes)) + Total(nodes)
  {
    assert Currents(Boost(nodes)) == Plus(Currents(nodes), Effectives(nodes));
    SumPlus(Currents(nodes), Effectives(nodes));
  }

  lemma Charged(nodes: Nodes, best: Id, c: int)
    requires best in nodes
    ensures Currents(nodes[best := nodes[best].(current := c)]) == Currents(nodes)[best := c]
  {
  }

  /** What a pick does to the sum of the current values. */
  lemma {:induction false} PickSum(before: Nodes, instances: Instances, best: Id, after: Nodes)
    requires IsPick(before, instances, best, after)
    ensures var table := Refresh(before, instances);
      Sum(Currents(after)) == Sum(Currents(table)) + if best == "" then Total(table) else 0
  {
    var table := Refresh(before, instances);
    var boosted := Boost(table);
    BoostedSum(table);
    if best != "" {
      var paid := boosted[best].current - Total(table);
      Charged(boosted, best, paid);
      SumUpdate(Currents(boosted), best, paid);
    }
  }

  /** What a pick does to one node. */
  lemma PickEffect(before: Nodes, instances: Instances, best: Id, after: Nodes, id: Id)
    requires IsPick(before, instances, best, after) && id in instances
    ensures var table := Refresh(before, instances);
      && id in after && after[id].effective == table[id].effective
      && after[id].current == table[id].current + table[id].effective
                              - if id == best && best != "" then Total(table) else 0
  {
  }

  ghost predicate PositiveWeights(nodes: Nodes) {
    forall id :: id in nodes ==> nodes[id].effective >= 1
  }

  /** A pick leaves the sum of the current values as it was, exactly when the winner has a
      non-empty id; otherwise the whole weight is added and never taken off again. */
  lemma {:induction false} PickKeepsSumIff(before: Nodes, instances: Instances, best: Id, after: Nodes)
    requires IsPick(before, instances, best, after)
    requires PositiveWeights(before)
    ensures Sum(Currents(after)) == Sum(Currents(Refresh(before, instances))) <==> best != ""
  {
    PickSum(before, instances, best, after);
    TotalPositive(Refresh(before, instances));
  }

  lemma {:induction false} TotalPositive(nodes: Nodes)
    requires PositiveWeights(nodes)
    ensures nodes != map[] ==> Total(nodes) >= 1
    ensures Total(nodes) >= |nodes|
  {
    SumAtLeast(Effectives(nodes), 1);
    assert Effectives(nodes).Keys == nodes.Keys;
    assert |Effectives(nodes)| == |Effectives(nodes).Keys| == |nodes.Keys| == |nodes|;
    if nodes != map[] {
      var k :| k in nodes;
      assert k in nodes.Keys;
    }
  }

  ghost predicate Balanced(nodes: Nodes) {
    && PositiveWeights(nodes)
    && Sum(Currents(nodes)) == 0
    && forall id :: id in nodes ==> nodes[id].current >= 1 - Total(nodes)
  }

  /** The winner's boosted value is positive, because the boosted values sum to W. */
  lemma {:induction false} WinnerIsPositive(table: Nodes, best: Id)
    requires Balanced(table) && IsMax(Boost(table), best)
    ensures Boost(table)[best].current >= 1
  {
    BoostedSum(table);
    TotalPositive(table);
    if Boost(table)[best].current <= 0 {
      SumAtMost(Currents(Boost(table)), 0);
      assert false;
    }
  }

  /** What every pick keeps: currents sum to zero and none falls below 1 - W. */
  lemma {:induction false} PickKeepsBalance(before: Nodes, instances: Instances, best: Id, after: Nodes)
    requires "" !in instances
    requires Balanced(Refresh(before, instances))
    requires IsPick(before, instances, best, after)
    ensures Balanced(after) && Total(after) == Total(Refresh(before, instances))
  {
    RefreshIsStable(before, instances, best, after);
    PickSum(before, instances, best, after);
    WinnerIsPositive(Refresh(before, instances), best);
    forall id | id in after
      ensures after[id].effective >= 1 && after[id].current >= 1 - Total(after)
    {
      PickEffect(before, instances, best, after, id);
    }
  }

  /** Balanced currents are bounded above as well, so an int64 never overflows while
      n * W stays below 2^63. */
  lemma {:induction false} BalancedUpperBound(nodes: Nodes, id: Id)
    requires Balanced(nodes) && id in nodes
    ensures nodes[id].current <= |nodes| * Total(nodes)
  {
    var m := Currents(nodes);
    SumTake(m, id);
    SumAtLeast(m - {id}, 1 - Total(nodes));
    assert (m - {id}).Keys == nodes.Keys - {id};
    assert |m - {id}| == |nodes| - 1;
    TotalPositive(nodes);
    Ceiling(|nodes|, Total(nodes));
  }

  lemma Ceiling(n: nat, w: int)
    requires n >= 1 && w >= 1
    ensures -((1 - w) * (n - 1)) <= n * w
  {
    assert (w - 1) * (n - 1) <= w * n;
  }

  // ---- runs -------------------------------------------------------------------------

  /** `trace` lists the node tables before and after each of the picks. */
  ghost predicate IsRun(trace: seq<Nodes>, picks: seq<Id>, instances: Instances) {
    && |trace| == |picks| + 1
    && forall i :: 0 <= i < |picks| ==> IsPick(trace[i], instances, picks[i], trace[i + 1])
  }

  ghost function Count(picks: seq<Id>, id: Id): nat {
    if picks == [] then 0 else Count(picks[..|picks| - 1], id) + if picks[|picks| - 1] == id then 1 else 0
  }

  ghost function Start(trace: seq<Nodes>, instances: Instances): Nodes
    requires trace != []
  {
    Refresh(trace[0], instances)
  }

  ghost function End(trace: seq<Nodes>, instances: Instances): Nodes
    requires trace != []
  {
    Refresh(trace[|trace| - 1], instances)
  }

  lemma Prefix(trace: seq<Nodes>, picks: seq<Id>, instances: Instances)
    requires IsRun(trace, picks, instances) && picks != []
    ensures IsRun(trace[..|picks|], picks[..|picks| - 1], instances)
    ensures IsPick(trace[|picks| - 1], instances, picks[|picks| - 1], trace[|picks|])
  {
    var t := |picks| - 1;
    assert IsPick(trace[t], instances, picks[t], trace[t + 1]);
  }

  /** The balance holds after every run of picks, whatever the tie-breaking. */
  lemma {:induction false} RunKeepsBalance(trace: seq<Nodes>, picks: seq<Id>, instances: Instances)
    requires IsRun(trace, picks, instances) && "" !in instances
    requires Balanced(Start(trace, instances))
    ensures Balanced(End(trace, instances))
    ensures Total(End(trace, instances)) == Total(Start(trace, instances))
    ensures forall id :: id in instances ==>
      1 - Total(Start(trace, instances)) <= End(trace, instances)[id].current
                                         <= |instances| * Total(Start(trace, instances))
    decreases |picks|
  {
    if picks != [] {
      var t := |picks| - 1;
      Prefix(trace, picks, instances);
      RunKeepsBalance(trace[..|picks|], picks[..t], instances);
      PickKeepsBalance(trace[t], instances, picks[t], trace[t + 1]);
      RefreshIsStable(trace[t], instances, picks[t], trace[t + 1]);
    }
    var last := End(trace, instances);
    assert last.Keys == instances.Keys;
    assert |last| == |last.Keys| == |instances.Keys| == |instances|;
    forall id | id in instances ensures last[id].current <= |instances| * Total(last) {
      BalancedUpperBound(last, id);
    }
  }

  /** Between `a` and `z` a node earned its weight t times and paid W for each of its picks. */
  ghost predicate Owed(a: Nodes, z: Nodes, id: Id, t: int, count: int) {
    && id in a && id in z
    && Effectives(z) == Effectives(a)
    && z[id].current == a[id].current + t * a[id].effective - Total(a) * count
  }

  lemma {:induction false} OwedStep(a: Nodes, before: Nodes, instances: Instances, best: Id, after: Nodes,
                                    id: Id, t: int, count: int)
    requires "" !in instances && id in instances
    requires Owed(a, Refresh(before, instances), id, t, count)
    requires IsPick(before, instances, best, after)
    ensures Owed(a, after, id, t + 1, count + if best == id then 1 else 0)
  {
    RefreshIsStable(before, instances, best, after);
    PickEffect(before, instances, best, after, id);
    SameEffective(Refresh(before, instances), a, id);
    Distribute(t + 1, t, a[id].effective, Total(a), count, if best == id then 1 else 0);
  }

  /** Closed form of every current value over a run. */
  lemma {:induction false} RunClosedForm(trace: seq<Nodes>, picks: seq<Id>, instances: Instances, id: Id)
    requires IsRun(trace, picks, instances) && "" !in instances && id in instances
    ensures Owed(Start(trace, instances), End(trace, instances), id, |picks|, Count(picks, id))
    decreases |picks|
  {
    if picks != [] {
      var t := |picks| - 1;
      Prefix(trace, picks, instances);
      RunClosedForm(trace[..|picks|], picks[..t], instances, id);
      OwedStep(Start(trace, instances), trace[t], instances, picks[t], trace[t + 1], id, t, Count(picks[..t], id));
      RefreshIsStable(trace[t], instances, picks[t], trace[t + 1]);
    }
  }

  lemma Distribute(n: int, t: int, e: int, w: int, c: int, p: int)
    requires n == t + 1
    ensures t * e - w * c + e - w * p == n * e - w * (c + p)
  {
  }

  lemma SameEffective(a: Nodes, b: Nodes, id: Id)
    requires Effectives(a) == Effectives(b) && id in a
    ensures id in b && a[id].effective == b[id].effective && Total(a) == Total(b)
  {
    assert Effectives(a)[id] == Effectives(b)[id];
  }

  ghost predicate AtRest(nodes: Nodes) {
    PositiveWeights(nodes) && forall id :: id in nodes ==> nodes[id].current == 0
  }

  lemma {:induction false} RestIsBalanced(nodes: Nodes)
    requires AtRest(nodes)
    ensures nodes != map[] ==> Balanced(nodes)
  {
    SumAtLeast(Currents(nodes), 0);
    SumAtMost(Currents(nodes), 0);
    TotalPositive(nodes);
  }

  lemma FreshIsAtRest(instances: Instances)
    ensures AtRest(Refresh(map[], instances))
  {
  }

  /** A new node starts at rest with its configured weight, 1 standing for 0; the total is the
      sum of those. */
  lemma {:induction false} FreshWeights(instances: Instances)
    ensures var a := Refresh(map[], instances);
      && a.Keys == instances.Keys
      && (forall id :: id in instances ==> a[id].effective == (if instances[id] == 0 then 1 else instances[id]))
      && Total(a) == Sum(map id | id in instances :: if instances[id] == 0 then 1 else instances[id])
  {
    assert Effectives(Refresh(map[], instances)) ==
      map id | id in instances :: if instances[id] == 0 then 1 else instances[id];
  }

  /** Fairness at every moment: after t picks nobody was chosen t*w/W + 1 times or more. */
  lemma {:induction false} NeverAhead(trace: seq<Nodes>, picks: seq<Id>, instances: Instances, id: Id)
    requires IsRun(trace, picks, instances) && "" !in instances && id in instances
    requires AtRest(Start(trace, instances))
    ensures var a := Start(trace, instances);
      Total(a) * Count(picks, id) < |picks| * a[id].effective + Total(a)
  {
    RestIsBalanced(Start(trace, instances));
    RunKeepsBalance(trace, picks, instances);
    RunClosedForm(trace, picks, instances, id);
  }

  /** Exact fairness: after k full cycles of W picks each instance was chosen exactly k*w
      times and all currents are back to zero. */
  lemma {:induction false} ExactPerCycle(trace: seq<Nodes>, picks: seq<Id>, instances: Instances, cycles: nat)
    requires IsRun(trace, picks, instances) && "" !in instances && instances != map[]
    requires AtRest(Start(trace, instances))
    requires |picks| == cycles * Total(Start(trace, instances))
    ensures AtRest(End(trace, instances))
    ensures forall id :: id in instances ==> Count(picks, id) == cycles * Start(trace, instances)[id].effective
  {
    var a, z := Start(trace, instances), End(trace, instances);
    RestIsBalanced(a);
    RunKeepsBalance(trace, picks, instances);
    forall id | id in instances ensures WholeCycles(a, z, id, cycles, Count(picks, id)) {
      RunClosedForm(trace, picks, instances, id);
      CycleRemainder(a, z, id, cycles, Count(picks, id));
    }
    ZeroSum(Currents(z));
    forall id | id in instances ensures z[id].current == 0 && Count(picks, id) == cycles * a[id].effective {
      assert WholeCycles(a, z, id, cycles, Count(picks, id));
      assert id in Currents(z);
      CycleDone(a, z, id, cycles, Count(picks, id));
    }
  }

  /** A fresh balancer, at every moment: after t picks an instance of configured weight w was
      chosen fewer than t*w/W + 1 times, W being the sum of the configured weights. */
  lemma {:induction false} FreshNeverAhead(trace: seq<Nodes>, picks: seq<Id>, instances: Instances, id: Id)
    requires IsRun(trace, picks, instances) && "" !in instances && id in instances && trace[0] == map[]
    ensures var w := if instances[id] == 0 then 1 else instances[id];
      var total := Sum(map i | i in instances :: if instances[i] == 0 then 1 else instances[i]);
      total * Count(picks, id) < |picks| * w + total
  {
    FreshIsAtRest(instances);
    FreshWeights(instances);
    NeverAhead(trace, picks, instances, id);
  }

  /** A fresh balancer after k cycles of W picks: each instance was chosen k times its
      configured weight. */
  lemma {:induction false} FreshExactPerCycle(trace: seq<Nodes>, picks: seq<Id>, instances: Instances, cycles: nat)
    requires IsRun(trace, picks, instances) && "" !in instances && instances != map[] && trace[0] == map[]
    requires |picks| == cycles * Sum(map id | id in instances :: if instances[id] == 0 then 1 else instances[id])
    ensures forall id :: id in instances ==>
      Count(picks, id) == cycles * (if instances[id] == 0 then 1 else instances[id])
    ensures forall id :: id in instances ==> id in End(trace, instances) && End(trace, instances)[id].current == 0
  {
    FreshIsAtRest(instances);
    FreshWeights(instances);
    ExactPerCycle(trace, picks, instances, cycles);
  }

  ghost predicate WholeCycles(a: Nodes, z: Nodes, id: Id, cycles: nat, count: nat) {
    && id in a && id in z
    && z[id].current == Total(a) * (cycles * a[id].effective - count)
    && z[id].current >= 0
  }

  lemma CycleDone(a: Nodes, z: Nodes, id: Id, cycles: nat, count: nat)
    requires AtRest(a) && WholeCycles(a, z, id, cycles, count) && z[id].current == 0
    ensures count == cycles * a[id].effective
  {
    TotalPositive(a);
    ZeroProduct(Total(a), cycles * a[id].effective - count);
  }

  /** A multiple of W that is at least 1 - W is not negative. */
  lemma {:induction false} CycleRemainder(a: Nodes, z: Nodes, id: Id, cycles: nat, count: nat)
    requires AtRest(a) && Owed(a, z, id, cycles * Total(a), count)
    requires z[id].current >= 1 - Total(a)
    ensures WholeCycles(a, z, id, cycles, count)
  {
    TotalPositive(a);
    Factor(cycles, Total(a), a[id].effective, count);
    NoSmallMultiple(Total(a), cycles * a[id].effective - count);
  }

  lemma Factor(k: int, w: int, e: int, c: int)
    ensures (k * w) * e - w * c == w * (k * e - c)
  {
    assert (k * w) * e == w * (k * e);
  }

  lemma NegativeProduct(w: int, p: int)
    requires w >= 1 && p >= 1
    ensures w * -p <= -w
  {
    assert w * -p == -(w * p);
    assert w * p == w + w * (p - 1);
    assert w * (p - 1) >= 0;
  }

  lemma NoSmallMultiple(w: int, q: int)
    requires w >= 1 && w * q >= 1 - w
    ensures w * q >= 0
  {
    if q < 0 {
      NegativeProduct(w, -q);
      assert false;
    }
  }

  lemma ZeroProduct(w: int, q: int)
    requires w >= 1 && w * q == 0
    ensures q == 0
  {
  }
}
