/** service/dispatchserver/dag.go: the node objects of one batch, built from the stored
    lines, filled with instances and linked instance by instance. */
module InstanceDag {
  import opened Common
  import opened Adjacency
  import opened InstanceLinks
  import opened CronParse
  import LineGraph

  type Line = LineGraph.Line

  datatype Node = Node(id: Id, name: string, schedule: string, status: RunStyle, deleted: bool)

  datatype DagError = StoreFailed | BadSchedule(id: Id)

  /** Stands for uuid.New: the only property used is that an id is never issued twice. */
  class UuidSource {
    var count: nat
    ghost var issued: set<Id>

    ghost predicate Valid()
      reads this
    {
      forall id :: id in issued ==> |id.text| < count
    }

    constructor ()
      ensures Valid() && issued == {}
    {
      count, issued := 0, {};
    }

    method New() returns (id: Id)
      requires Valid()
      modifies this
      ensures Valid() && id !in old(issued) && issued == old(issued) + {id}
    {
      id := Id(seq(count, _ => 'u'));
      issued := issued + {id};
      count := count + 1;
    }
  }

  /** The instances made for one node: one dry run when the schedule never fires in the
      window, otherwise one per fire time, in order, with fresh distinct ids. */
  ghost predicate MadeFor(node: Node, times: seq<int>, now: int, batchId: Id, taken: set<Id>, made: seq<Instance>) {
    && |made| == (if times == [] then 1 else |times|)
    && DistinctIds(made)
    && IdsOf(made) !! taken
    && forall i :: 0 <= i < |made| ==>
                     && made[i].nodeId == node.id && made[i].batchId == batchId
                     && made[i].status == NotReady && made[i].index == i + 1
                     && made[i].executeTime == (if times == [] then now else times[i])
                     && made[i].runStyle == (if times == [] then DryRun else node.status)
  }

  class DAGNode {
    const data: Node
    var instances: seq<Instance>
    var ins: map<Id, DAGNode>
    var outs: map<Id, DAGNode>

    constructor (node: Node)
      ensures data == node && instances == [] && ins == map[] && outs == map[]
    {
      data, instances, ins, outs := node, [], map[], map[];
    }

    method AddIn(n: DAGNode)
      modifies this`ins
      ensures ins == old(ins)[n.data.id := n]
    {
      ins := ins[n.data.id := n];
    }

    method AddOut(n: DAGNode)
      modifies this`outs
      ensures outs == old(outs)[n.data.id := n]
    {
      outs := outs[n.data.id := n];
    }

    method CreateInstance(times: seq<int>, now: int, batchId: Id, uuids: UuidSource)
      requires uuids.Valid()
      modifies this`instances, uuids
      ensures uuids.Valid() && old(uuids.issued) <= uuids.issued
      ensures old(instances) <= instances
      ensures MadeFor(data, times, now, batchId, old(uuids.issued), instances[|old(instances)|..])
      ensures IdsOf(instances[|old(instances)|..]) <= uuids.issued
    {
      hide MadeFor;
      ghost var n := |instances|;
      if times == [] {
        var id := uuids.New();
        var instance := Instance(id, data.id, now, DryRun, NotReady, batchId, 1);
        instances := instances + [instance];
        MadeOnce(data, now, batchId, old(uuids.issued), instance);
        assert instances[n..] == [instance];
        return;
      }
      for i := 0 to |times|
        invariant uuids.Valid() && old(uuids.issued) <= uuids.issued
        invariant |instances| == n + i && old(instances) <= instances
        invariant MadeFor(data, times[..i], now, batchId, old(uuids.issued), instances[n..]) || i == 0
        invariant IdsOf(instances[n..]) <= uuids.issued
      {
        ghost var made := instances[n..];
        var id := uuids.New();
        var instance := Instance(id, data.id, times[i], data.status, NotReady, batchId, i + 1);
        instances := instances + [instance];
        assert instances[n..] == made + [instance];
        MadeMore(data, times, i, now, batchId, old(uuids.issued), made, instance);
      }
      assert times[..|times|] == times;
    }

    /** The instance lists of the linked upstream objects. */
    ghost function Ups(): Upstreams
      reads this, ins.Values
    {
      map u | u in ins :: ins[u].instances
    }

    /** Every instance gets, from every upstream node that has instances, the latest one
        not after it, or the first if none is. */
    method BuildInstanceDepend() returns (result: map<Id, seq<Id>>)
      requires Ordered(instances) && DistinctIds(instances)
      ensures result.Keys == if Active(Ups()) == {} then {} else IdsOf(instances)
      ensures forall i :: 0 <= i < |instances| && Active(Ups()) != {} ==>
                            && instances[i].id in result
                            && IsPicks(Ups(), instances[i].executeTime, result[instances[i].id])
    {
      hide Active, Elements, Linked, Distinct, Ordered, DistinctIds, IdsOf, IsPicks;
      result := map[];
      ghost var ups := Ups();
      LinkedStart(instances, ups);
      if |instances| == 0 || |ins| == 0 {
        return;
      }
      ghost var order: seq<Id> := [];
      var pending := ins.Keys;
      while pending != {}
        invariant pending <= ins.Keys
        invariant Distinct(order) && Elements(order) == Active(ups) - pending
        invariant Linked(instances, ups, order, result)
      {
        var u :| u in pending;
        var upNode := ins[u];
        ActiveStep(ups, order, pending, u);
        pending := pending - {u};
        if |upNode.instances| == 0 {
          continue;
        }
        result := Sweep(instances, upNode.instances, ups, order, u, result);
        order := order + [u];
      }
      assert Active(ups) - {} == Active(ups);
      LinkedDone(instances, ups, order, result);
    }
  }

  lemma MadeOnce(node: Node, now: int, batchId: Id, taken: set<Id>, instance: Instance)
    requires instance == Instance(instance.id, node.id, now, DryRun, NotReady, batchId, 1) && instance.id !in taken
    ensures MadeFor(node, [], now, batchId, taken, [instance]) && IdsOf([instance]) == {instance.id}
  {
  }

  lemma MadeMore(node: Node, times: seq<int>, i: nat, now: int, batchId: Id, taken: set<Id>,
                 made: seq<Instance>, instance: Instance)
    requires i < |times| && |made| == i
    requires MadeFor(node, times[..i], now, batchId, taken, made) || i == 0
    requires instance == Instance(instance.id, node.id, times[i], node.status, NotReady, batchId, i + 1)
    requires instance.id !in taken && instance.id !in IdsOf(made)
    ensures MadeFor(node, times[..i + 1], now, batchId, taken, made + [instance])
    ensures IdsOf(made + [instance]) == IdsOf(made) + {instance.id}
  {
    var more := made + [instance];
    assert forall x :: x in more <==> x in made || x == instance;
    assert more[|made|] == instance;
    forall k | 0 <= k < |made|
      ensures made[k].id in IdsOf(made)
    {
    }
  }

  // ---- the two-pointer sweep ----

  function Entry(result: map<Id, seq<Id>>, id: Id): seq<Id> {
    if id in result then result[id] else []
  }

  /** `result` holds the picks of every instance from the upstream nodes in `order`. */
  ghost predicate Linked(cur: seq<Instance>, ups: Upstreams, order: seq<Id>, result: map<Id, seq<Id>>) {
    && Elements(order) <= Active(ups)
    && result.Keys == (if order == [] then {} else IdsOf(cur))
    && forall i :: 0 <= i < |cur| ==> Entry(result, cur[i].id) == Picks(ups, order, cur[i].executeTime)
  }

  lemma LinkedStart(cur: seq<Instance>, ups: Upstreams)
    ensures Distinct([]) && Elements([]) == Active(ups) - ups.Keys && Linked(cur, ups, [], map[])
    ensures cur == [] ==> IdsOf(cur) == {}
    ensures |ups| == 0 ==> Active(ups) == {}
  {
    assert Elements([]) == {};
    if |ups| == 0 {
      assert ups == map[];
    }
  }

  lemma LinkedDone(cur: seq<Instance>, ups: Upstreams, order: seq<Id>, result: map<Id, seq<Id>>)
    requires Linked(cur, ups, order, result) && Distinct(order) && Elements(order) == Active(ups)
    ensures result.Keys == if Active(ups) == {} then {} else IdsOf(cur)
    ensures forall i :: 0 <= i < |cur| && Active(ups) != {} ==>
                          cur[i].id in result && IsPicks(ups, cur[i].executeTime, result[cur[i].id])
  {
    if order != [] {
      assert order[0] in Elements(order);
      forall i | 0 <= i < |cur|
        ensures cur[i].id in result && IsPicks(ups, cur[i].executeTime, result[cur[i].id])
      {
        assert cur[i] in cur;
        assert IsPicksIn(ups, cur[i].executeTime, result[cur[i].id], order);
      }
    } else {
      assert Elements(order) == {};
    }
  }

  lemma ActiveStep(ups: Upstreams, order: seq<Id>, pending: set<Id>, u: Id)
    requires u in pending && pending <= ups.Keys && Elements(order) == Active(ups) - pending && Distinct(order)
    ensures ups[u] == [] ==> Elements(order) == Active(ups) - (pending - {u})
    ensures ups[u] != [] ==> u in Active(ups)
    ensures ups[u] != [] ==> Elements(order + [u]) == Active(ups) - (pending - {u}) && Distinct(order + [u])
  {
    ElementsAppend(order, u);
    assert u !in Elements(order);
  }

  /** The state of the sweep: the instances from `from` on have their pick appended. */
  ghost predicate Swept(cur: seq<Instance>, up: seq<Instance>, from: nat, before: map<Id, seq<Id>>,
                        result: map<Id, seq<Id>>)
  {
    && up != [] && from <= |cur|
    && result.Keys == before.Keys + IdsOf(cur[from..])
    && forall i :: 0 <= i < |cur| ==>
                     Entry(result, cur[i].id) ==
                     Entry(before, cur[i].id) +
                     if i < from then [] else [LatestId(up, cur[i].executeTime)]
  }

  lemma SweptOne(cur: seq<Instance>, up: seq<Instance>, from: nat, before: map<Id, seq<Id>>,
                 result: map<Id, seq<Id>>, pick: Id)
    requires Swept(cur, up, from + 1, before, result) && from < |cur| && DistinctIds(cur)
    requires pick == LatestId(up, cur[from].executeTime)
    ensures Swept(cur, up, from, before, result[cur[from].id := Entry(result, cur[from].id) + [pick]])
  {
    hide LatestId, IdsOf;
    IdsOfTail(cur, from);
    var id, t := cur[from].id, cur[from].executeTime;
    var after := result[id := Entry(result, id) + [pick]];
    forall i | 0 <= i < |cur|
      ensures Entry(after, cur[i].id) ==
              Entry(before, cur[i].id) + if i < from then [] else [LatestId(up, cur[i].executeTime)]
    {
      assert i != from ==> cur[i].id != id;
    }
  }

  /** The upstream pointer is at the pick of instance idx, or above it. */
  ghost predicate Aimed(cur: seq<Instance>, up: seq<Instance>, idx: nat, pIdx: nat) {
    && idx < |cur| && pIdx < |up|
    && Latest(up, cur[idx].executeTime) == LatestFrom(up, cur[idx].executeTime, pIdx)
  }

  lemma AimStart(cur: seq<Instance>, up: seq<Instance>)
    requires up != []
    ensures cur != [] ==> Aimed(cur, up, |cur| - 1, |up| - 1)
  {
  }

  lemma AimLower(cur: seq<Instance>, up: seq<Instance>, idx: nat, pIdx: nat)
    requires Aimed(cur, up, idx, pIdx) && pIdx > 0 && cur[idx].executeTime < up[pIdx].executeTime
    ensures Aimed(cur, up, idx, pIdx - 1)
  {
  }

  lemma AimHit(cur: seq<Instance>, up: seq<Instance>, idx: nat, pIdx: nat)
    requires Aimed(cur, up, idx, pIdx) && Ordered(cur)
    requires pIdx == 0 || up[pIdx].executeTime <= cur[idx].executeTime
    ensures up[pIdx].id == LatestId(up, cur[idx].executeTime)
    ensures idx > 0 ==> Aimed(cur, up, idx - 1, pIdx)
  {
    if idx > 0 {
      LatestFromEarlier(up, cur[idx].executeTime, cur[idx - 1].executeTime, |up| - 1);
    }
  }

  lemma IdsOfTail(cur: seq<Instance>, from: nat)
    requires from < |cur|
    ensures IdsOf(cur[from..]) == {cur[from].id} + IdsOf(cur[from + 1..])
  {
    assert cur[from..] == [cur[from]] + cur[from + 1..];
    assert forall x :: x in cur[from..] <==> x == cur[from] || x in cur[from + 1..];
  }

  lemma SweptStart(cur: seq<Instance>, up: seq<Instance>, before: map<Id, seq<Id>>)
    requires up != []
    ensures Swept(cur, up, |cur|, before, before)
  {
    assert IdsOf(cur[|cur|..]) == {};
  }

  lemma SweptLinks(cur: seq<Instance>, ups: Upstreams, order: seq<Id>, u: Id, before: map<Id, seq<Id>>,
                   result: map<Id, seq<Id>>)
    requires Linked(cur, ups, order, before) && u in Active(ups)
    requires Swept(cur, ups[u], 0, before, result)
    ensures Linked(cur, ups, order + [u], result)
  {
    ElementsAppend(order, u);
    assert cur[0..] == cur;
    forall i | 0 <= i < |cur|
      ensures Entry(result, cur[i].id) == Picks(ups, order + [u], cur[i].executeTime)
    {
      PicksAppend(ups, order, u, cur[i].executeTime);
    }
  }

  /** Both lists are walked from their ends; the upstream pointer only ever moves down. */
  method Sweep(cur: seq<Instance>, up: seq<Instance>, ghost ups: Upstreams, ghost order: seq<Id>, ghost u: Id,
               before: map<Id, seq<Id>>)
    returns (result: map<Id, seq<Id>>)
    requires Ordered(cur) && DistinctIds(cur) && up != []
    requires Linked(cur, ups, order, before) && u in Active(ups) && ups[u] == up
    ensures Linked(cur, ups, order + [u], result)
  {
    hide Swept, Aimed, DistinctIds, Ordered, Linked, Active, LatestId, IdsOf;
    result := before;
    var idx, pIdx := |cur| - 1, |up| - 1;
    SweptStart(cur, up, before);
    AimStart(cur, up);
    while idx >= 0 && pIdx >= 0
      invariant -1 <= idx < |cur| && 0 <= pIdx < |up|
      invariant Swept(cur, up, idx + 1, before, result)
      invariant idx >= 0 ==> Aimed(cur, up, idx, pIdx)
      decreases idx + pIdx
    {
      var previous, curInstance := up[pIdx], cur[idx];
      if curInstance.executeTime < previous.executeTime && pIdx > 0 {
        AimLower(cur, up, idx, pIdx);
        pIdx := pIdx - 1;
        continue;
      }
      AimHit(cur, up, idx, pIdx);
      SweptOne(cur, up, idx, before, result, previous.id);
      result := result[curInstance.id := Entry(result, curInstance.id) + [previous.id]];
      idx := idx - 1;
    }
    SweptLinks(cur, ups, order, u, before, result);
  }

  // ---- merging ----

  ghost predicate IsMerge(e: map<Id, seq<Id>>, r: map<Id, seq<Id>>, merged: map<Id, seq<Id>>) {
    && merged.Keys == e.Keys + r.Keys
    && forall k :: k in merged ==> merged[k] == Entry(r, k) + Entry(e, k)
  }

  /** The entries of `e` outside `pending` are in. */
  ghost predicate Merging(e: map<Id, seq<Id>>, r: map<Id, seq<Id>>, pending: set<Id>, merged: map<Id, seq<Id>>) {
    && merged.Keys == r.Keys + (e.Keys - pending)
    && forall k :: k in merged ==> merged[k] == Entry(r, k) + if k in pending then [] else Entry(e, k)
  }

  lemma MergeStarts(e: map<Id, seq<Id>>, r: map<Id, seq<Id>>)
    ensures Merging(e, r, e.Keys, r)
    ensures r == map[] ==> IsMerge(e, r, e)
  {
    if r == map[] {
      forall k | k in e
        ensures e[k] == Entry(r, k) + Entry(e, k)
      {
        assert Entry(r, k) == [];
      }
    }
  }

  lemma MergeStep(e: map<Id, seq<Id>>, r: map<Id, seq<Id>>, pending: set<Id>, merged: map<Id, seq<Id>>, k: Id)
    requires Merging(e, r, pending, merged) && k in pending && k in e
    ensures Merging(e, r, pending - {k}, merged[k := if k in merged then merged[k] + e[k] else e[k]])
  {
    if k !in merged {
      assert Entry(r, k) == [] && [] + e[k] == e[k];
    }
  }

  lemma MergeEnds(e: map<Id, seq<Id>>, r: map<Id, seq<Id>>, merged: map<Id, seq<Id>>)
    requires Merging(e, r, {}, merged)
    ensures IsMerge(e, r, merged)
  {
  }

  /** Each entry of `e` is appended to the entry of `r` with the same key. */
  method Merge(e: map<Id, seq<Id>>, r: map<Id, seq<Id>>) returns (merged: map<Id, seq<Id>>)
    ensures IsMerge(e, r, merged)
  {
    hide IsMerge, Merging;
    MergeStarts(e, r);
    if |r| == 0 {
      return e;
    }
    merged := r;
    var pending := e.Keys;
    while pending != {}
      invariant pending <= e.Keys && Merging(e, r, pending, merged)
    {
      var k :| k in pending;
      MergeStep(e, r, pending, merged, k);
      pending := pending - {k};
      merged := merged[k := if k in merged then merged[k] + e[k] else e[k]];
    }
    MergeEnds(e, r, merged);
  }
}
