/** Which upstream instance an instance depends on, as plain functions of the instance
    lists: the reference the sweep of service/dispatchserver/dag.go is measured against. */
module InstanceLinks {
  import opened Common
  import opened Digraph
  import opened Adjacency

  datatype RunStyle = Normal | DryRun | StopRun

  datatype InstanceStatus = NotReady | Waiting | Running | Success | Failure | Abort | TimeOut

  datatype Instance = Instance(id: Id, nodeId: Id, executeTime: int, runStyle: RunStyle,
                               status: InstanceStatus, batchId: Id, index: nat)

  ghost predicate Ordered(xs: seq<Instance>) {
    forall i, j :: 0 <= i < j < |xs| ==> xs[i].executeTime <= xs[j].executeTime
  }

  ghost function IdsOf(xs: seq<Instance>): set<Id> {
    set x | x in xs :: x.id
  }

  ghost predicate DistinctIds(xs: seq<Instance>) {
    forall i, j :: 0 <= i < j < |xs| ==> xs[i].id != xs[j].id
  }

  /** Scan down from p for an instance not after t, stopping at the first. */
  ghost function LatestFrom(up: seq<Instance>, t: int, p: nat): (r: nat)
    requires p < |up|
    ensures r <= p
  {
    if p == 0 || up[p].executeTime <= t then p else LatestFrom(up, t, p - 1)
  }

  ghost function Latest(up: seq<Instance>, t: int): (r: nat)
    requires up != []
    ensures r < |up|
  {
    LatestFrom(up, t, |up| - 1)
  }

  ghost function LatestId(up: seq<Instance>, t: int): Id
    requires up != []
  {
    up[Latest(up, t)].id
  }

  /** The latest instance not after t or, when all are after t, the first. */
  ghost predicate LatestNotAfter(up: seq<Instance>, t: int, p: nat) {
    && p < |up|
    && (up[p].executeTime <= t || (p == 0 && forall q :: 0 <= q < |up| ==> t < up[q].executeTime))
    && (forall q :: p < q < |up| ==> t < up[q].executeTime)
  }

  lemma {:induction false} LatestFromMeaning(up: seq<Instance>, t: int, p: nat)
    requires p < |up|
    requires forall q :: p < q < |up| ==> t < up[q].executeTime
    ensures LatestNotAfter(up, t, LatestFrom(up, t, p))
    decreases p
  {
    if p > 0 && t < up[p].executeTime {
      LatestFromMeaning(up, t, p - 1);
    }
  }

  lemma {:induction false} LatestUnique(up: seq<Instance>, t: int, p: nat)
    requires up != []
    ensures LatestNotAfter(up, t, p) <==> p == Latest(up, t)
  {
    LatestFromMeaning(up, t, |up| - 1);
  }

  /** Moving to an earlier time never moves the pick to a later instance. */
  lemma {:induction false} LatestFromEarlier(up: seq<Instance>, t: int, t': int, p: nat)
    requires p < |up| && t' <= t
    ensures LatestFrom(up, t', p) == LatestFrom(up, t', LatestFrom(up, t, p))
    decreases p
  {
    if p > 0 && t < up[p].executeTime {
      LatestFromEarlier(up, t, t', p - 1);
    }
  }

  // ---- the links of one node ----

  type Upstreams = map<Id, seq<Instance>>

  ghost function Active(ups: Upstreams): set<Id> {
    set u | u in ups && ups[u] != []
  }

  ghost function PickId(ups: Upstreams, u: Id, t: int): Id
    requires u in Active(ups)
  {
    LatestId(ups[u], t)
  }

  /** One pick per upstream node, in the given order of upstream nodes. */
  ghost function Picks(ups: Upstreams, order: seq<Id>, t: int): (ids: seq<Id>)
    requires Elements(order) <= Active(ups)
    ensures |ids| == |order|
    decreases |order|
  {
    if order == [] then [] else
      var last := order[|order| - 1];
      assert last in Elements(order);
      assert Elements(order[..|order| - 1]) <= Elements(order);
      Picks(ups, order[..|order| - 1], t) + [PickId(ups, last, t)]
  }

  lemma PicksAppend(ups: Upstreams, order: seq<Id>, u: Id, t: int)
    requires Elements(order) <= Active(ups) && u in Active(ups)
    ensures Elements(order + [u]) <= Active(ups)
    ensures Picks(ups, order + [u], t) == Picks(ups, order, t) + [PickId(ups, u, t)]
  {
    ElementsAppend(order, u);
    assert (order + [u])[..|order|] == order;
  }

  lemma {:induction false} PicksAt(ups: Upstreams, order: seq<Id>, t: int, k: nat)
    requires Elements(order) <= Active(ups) && k < |order|
    ensures order[k] in Active(ups)
    ensures Picks(ups, order, t)[k] == PickId(ups, order[k], t)
    decreases |order|
  {
    assert order[k] in Elements(order);
    var n := |order| - 1;
    assert Elements(order[..n]) <= Elements(order);
    if k < n {
      PicksAt(ups, order[..n], t, k);
    }
  }

  /** The links of a node: each of its instances gets one pick from every upstream node
      that has instances, whatever order the upstream nodes come in. */
  ghost predicate IsPicks(ups: Upstreams, t: int, ids: seq<Id>) {
    exists order :: IsPicksIn(ups, t, ids, order)
  }

  ghost predicate IsPicksIn(ups: Upstreams, t: int, ids: seq<Id>, order: seq<Id>) {
    Distinct(order) && Elements(order) == Active(ups) && ids == Picks(ups, order, t)
  }

  lemma {:induction false} DistinctSameElements(a: seq<Id>, b: seq<Id>)
    requires Distinct(a) && Distinct(b) && Elements(a) == Elements(b)
    ensures multiset(a) == multiset(b)
  {
    forall x
      ensures multiset(a)[x] == multiset(b)[x]
    {
      DistinctCount(a, x);
      DistinctCount(b, x);
      assert x in a <==> x in Elements(a);
      assert x in b <==> x in Elements(b);
    }
  }

  lemma {:induction false} DistinctCount(s: seq<Id>, x: Id)
    requires Distinct(s)
    ensures multiset(s)[x] == if x in s then 1 else 0
    decreases |s|
  {
    if s != [] {
      DistinctCount(s[1..], x);
      assert s == [s[0]] + s[1..];
    }
  }

  /** Instance ids do not repeat across upstream nodes. */
  ghost predicate ApartIds(ups: Upstreams) {
    forall u, v :: u in ups && v in ups && u != v ==> IdsOf(ups[u]) !! IdsOf(ups[v])
  }

  lemma PickBelongs(ups: Upstreams, u: Id, t: int)
    requires u in Active(ups)
    ensures PickId(ups, u, t) in IdsOf(ups[u])
  {
    assert ups[u][Latest(ups[u], t)] in ups[u];
  }

  /** One link per upstream node that has instances, to that node's pick. */
  lemma PicksMembers(ups: Upstreams, t: int, ids: seq<Id>)
    requires IsPicks(ups, t, ids)
    ensures |ids| == |Active(ups)|
    ensures forall x :: x in ids <==> exists u :: u in Active(ups) && x == PickId(ups, u, t)
  {
    hide PickId;
    var order :| IsPicksIn(ups, t, ids, order);
    DistinctSize(order);
    forall k | 0 <= k < |order|
      ensures order[k] in Active(ups) && ids[k] == PickId(ups, order[k], t)
    {
      PicksAt(ups, order, t, k);
    }
    forall u | u in Active(ups)
      ensures PickId(ups, u, t) in ids
    {
      assert u in Elements(order);
      var k :| 0 <= k < |order| && order[k] == u;
      assert ids[k] == PickId(ups, order[k], t);
    }
  }

  lemma PicksDistinct(ups: Upstreams, t: int, ids: seq<Id>)
    requires IsPicks(ups, t, ids) && ApartIds(ups)
    ensures Distinct(ids)
  {
    hide PickId, Active;
    var order :| IsPicksIn(ups, t, ids, order);
    forall j, k | 0 <= j < k < |ids|
      ensures ids[j] != ids[k]
    {
      PicksAt(ups, order, t, j);
      PicksAt(ups, order, t, k);
      PickBelongs(ups, order[j], t);
      PickBelongs(ups, order[k], t);
      ActiveKnown(ups, order[j]);
      ActiveKnown(ups, order[k]);
    }
  }

  lemma ActiveKnown(ups: Upstreams, u: Id)
    ensures u in Active(ups) <==> u in ups && ups[u] != []
  {
  }

  /** Any two upstream orders give the same links: none lost, none duplicated. */
  lemma PicksOrderFree(ups: Upstreams, t: int, a: seq<Id>, b: seq<Id>)
    requires IsPicks(ups, t, a) && IsPicks(ups, t, b) && ApartIds(ups)
    ensures multiset(a) == multiset(b) && Distinct(a)
  {
    PicksMembers(ups, t, a);
    PicksMembers(ups, t, b);
    PicksDistinct(ups, t, a);
    PicksDistinct(ups, t, b);
    assert forall x :: x in a <==> x in b;
    assert Elements(a) == Elements(b);
    DistinctSameElements(a, b);
  }

  // ---- the links of a whole graph ----

  datatype NodeView = NodeView(instances: seq<Instance>, ins: set<Id>)

  type DagView = map<Id, NodeView>

  ghost function UpstreamsOf(view: DagView, n: Id): Upstreams
    requires n in view
  {
    map u | u in view[n].ins && u in view :: view[u].instances
  }

  /** Every instance id belongs to one place in one node. */
  ghost predicate UniqueIds(view: DagView) {
    && (forall n :: n in view ==> DistinctIds(view[n].instances))
    && (forall m, n :: m in view && n in view && m != n ==> IdsOf(view[m].instances) !! IdsOf(view[n].instances))
  }

  ghost function NodeEdges(view: DagView): set<Edge> {
    set n, u | n in view && u in view[n].ins :: (u, n)
  }

  /** `up` is the pick of some instance of node n from upstream node u. */
  ghost predicate Links(view: DagView, u: Id, n: Id, i: nat, e: Edge) {
    && n in view && i < |view[n].instances| && u in Active(UpstreamsOf(view, n))
    && e == (PickId(UpstreamsOf(view, n), u, view[n].instances[i].executeTime), view[n].instances[i].id)
  }

  ghost predicate IsInstanceEdge(view: DagView, e: Edge) {
    exists u, n, i: nat :: Links(view, u, n, i, e)
  }

  ghost predicate Owns(view: DagView, n: Id, id: Id) {
    n in view && id in IdsOf(view[n].instances)
  }

  /** The node an instance id belongs to. */
  ghost function Owner(view: DagView, id: Id): Id {
    if exists n :: Owns(view, n, id) then
      var n :| Owns(view, n, id);
      n
    else id
  }

  lemma OwnerUnique(view: DagView, n: Id, id: Id)
    requires UniqueIds(view) && Owns(view, n, id)
    ensures Owner(view, id) == n
  {
  }

  lemma LinkOwners(view: DagView, e: Edge)
    requires UniqueIds(view) && IsInstanceEdge(view, e)
    ensures (Owner(view, e.0), Owner(view, e.1)) in NodeEdges(view)
  {
    var u, n, i: nat :| Links(view, u, n, i, e);
    assert view[n].instances[i] in view[n].instances;
    OwnerUnique(view, n, e.1);
    PickBelongs(UpstreamsOf(view, n), u, view[n].instances[i].executeTime);
    OwnerUnique(view, u, e.0);
  }

  /** If the node graph is acyclic, so is the graph of instance links. */
  lemma InstanceLinksAcyclic(view: DagView, E: set<Edge>)
    requires UniqueIds(view) && Acyclic(NodeEdges(view))
    requires forall e :: e in E ==> IsInstanceEdge(view, e)
    ensures Acyclic(E)
  {
    hide NodeEdges, UniqueIds, IsInstanceEdge, Owner, Acyclic;
    var ids := (set e | e in E :: e.0) + (set e | e in E :: e.1);
    var owner := map id | id in ids :: Owner(view, id);
    forall e | e in E
      ensures e.0 in owner && e.1 in owner && (owner[e.0], owner[e.1]) in NodeEdges(view)
    {
      LinkOwners(view, e);
    }
    MappedAcyclic(E, NodeEdges(view), owner);
  }
}
