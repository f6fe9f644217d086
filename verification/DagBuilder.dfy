/** service/dispatchserver/dag.go: the whole node graph of a batch, its builder, its
    instances and its instance links. */
module DagBuilder {
  import opened Common
  import opened Digraph
  import opened Adjacency
  import opened InstanceLinks
  import opened InstanceDag
  import opened CronParse
  import LineGraph

  lemma MadeOrdered(node: Node, times: seq<int>, now: int, batchId: Id, taken: set<Id>, made: seq<Instance>)
    requires MadeFor(node, times, now, batchId, taken, made) && StrictlyAscending(times)
    ensures Ordered(made) && DistinctIds(made) && made != []
  {
  }

  /** What the merged links say, for the nodes in `done`: nothing else, and nothing less. */
  ghost predicate DependsOn(view: DagView, done: set<Id>, result: map<Id, seq<Id>>) {
    OnlyLinks(view, done, result) && AllLinks(view, done, result)
  }

  ghost predicate OnlyLinks(view: DagView, done: set<Id>, result: map<Id, seq<Id>>) {
    forall id :: id in result ==> exists n :: HasLinks(view, done, n) && id in IdsOf(view[n].instances)
  }

  ghost predicate AllLinks(view: DagView, done: set<Id>, result: map<Id, seq<Id>>) {
    forall n, i :: HasLinks(view, done, n) && 0 <= i < |view[n].instances| ==>
                     && view[n].instances[i].id in result
                     && IsPicks(UpstreamsOf(view, n), view[n].instances[i].executeTime, result[view[n].instances[i].id])
  }

  ghost predicate HasLinks(view: DagView, done: set<Id>, n: Id) {
    n in done && n in view && Active(UpstreamsOf(view, n)) != {}
  }

  /** The links of one node, as DAGNode.BuildInstanceDepend returns them. */
  ghost predicate NodeLinks(view: DagView, n: Id, e: map<Id, seq<Id>>) {
    && n in view
    && e.Keys == (if Active(UpstreamsOf(view, n)) == {} then {} else IdsOf(view[n].instances))
    && forall i :: 0 <= i < |view[n].instances| && Active(UpstreamsOf(view, n)) != {} ==>
                     view[n].instances[i].id in e &&
                     IsPicks(UpstreamsOf(view, n), view[n].instances[i].executeTime, e[view[n].instances[i].id])
  }

  lemma LinksOfNode(view: DagView, n: Id, instances: seq<Instance>, ups: Upstreams, e: map<Id, seq<Id>>)
    requires n in view && instances == view[n].instances && ups == UpstreamsOf(view, n)
    requires e.Keys == if Active(ups) == {} then {} else IdsOf(instances)
    requires forall i :: 0 <= i < |instances| && Active(ups) != {} ==>
                           instances[i].id in e && IsPicks(ups, instances[i].executeTime, e[instances[i].id])
    ensures NodeLinks(view, n, e)
  {
    hide IsPicks, Active;
  }

  lemma MergeApart(e: map<Id, seq<Id>>, r: map<Id, seq<Id>>, merged: map<Id, seq<Id>>, k: Id)
    requires IsMerge(e, r, merged) && e.Keys !! r.Keys
    ensures k in e ==> k in merged && merged[k] == e[k]
    ensures k in r ==> k in merged && merged[k] == r[k]
  {
  }

  lemma MergeNode(view: DagView, done: set<Id>, n: Id, e: map<Id, seq<Id>>, r: map<Id, seq<Id>>,
                  merged: map<Id, seq<Id>>)
    requires UniqueIds(view) && n !in done && NodeLinks(view, n, e) && DependsOn(view, done, r)
    requires IsMerge(e, r, merged)
    ensures DependsOn(view, done + {n}, merged)
  {
    MergeOnly(view, done, n, e, r, merged);
    MergeAll(view, done, n, e, r, merged);
  }

  lemma NothingLinked(view: DagView)
    ensures DependsOn(view, {}, map[])
  {
  }

  lemma MergeOnly(view: DagView, done: set<Id>, n: Id, e: map<Id, seq<Id>>, r: map<Id, seq<Id>>,
                  merged: map<Id, seq<Id>>)
    requires NodeLinks(view, n, e) && OnlyLinks(view, done, r) && IsMerge(e, r, merged)
    ensures OnlyLinks(view, done + {n}, merged)
  {
    forall id | id in merged
      ensures exists m :: HasLinks(view, done + {n}, m) && id in IdsOf(view[m].instances)
    {
      if id in e {
        assert HasLinks(view, done + {n}, n);
      } else {
        var m :| HasLinks(view, done, m) && id in IdsOf(view[m].instances);
        assert HasLinks(view, done + {n}, m);
      }
    }
  }

  lemma MergeAll(view: DagView, done: set<Id>, n: Id, e: map<Id, seq<Id>>, r: map<Id, seq<Id>>,
                 merged: map<Id, seq<Id>>)
    requires UniqueIds(view) && n !in done && NodeLinks(view, n, e) && DependsOn(view, done, r)
    requires IsMerge(e, r, merged)
    ensures AllLinks(view, done + {n}, merged)
  {
    hide IsPicks, Active, UpstreamsOf, IsMerge, UniqueIds;
    KeysApart(view, done, n, e, r);
    forall m, i | HasLinks(view, done + {n}, m) && 0 <= i < |view[m].instances|
      ensures view[m].instances[i].id in merged
      ensures IsPicks(UpstreamsOf(view, m), view[m].instances[i].executeTime, merged[view[m].instances[i].id])
    {
      MergeApart(e, r, merged, view[m].instances[i].id);
      assert m != n ==> HasLinks(view, done, m);
    }
  }

  lemma KeysApart(view: DagView, done: set<Id>, n: Id, e: map<Id, seq<Id>>, r: map<Id, seq<Id>>)
    requires UniqueIds(view) && n !in done && NodeLinks(view, n, e) && DependsOn(view, done, r)
    ensures e.Keys !! r.Keys
  {
    hide IsPicks, Active, UpstreamsOf;
    forall id | id in r
      ensures id !in e
    {
      var m :| HasLinks(view, done, m) && id in IdsOf(view[m].instances);
      assert IdsOf(view[m].instances) !! IdsOf(view[n].instances);
    }
  }

  /** The merged links are exactly the instance edges. */
  lemma DependsOnEdges(view: DagView, result: map<Id, seq<Id>>, a: Id, b: Id)
    requires UniqueIds(view) && DependsOn(view, view.Keys, result)
    ensures b in result && a in result[b] <==> IsInstanceEdge(view, (a, b))
  {
    if b in result && a in result[b] {
      var n :| HasLinks(view, view.Keys, n) && b in IdsOf(view[n].instances);
      var i: nat :| i < |view[n].instances| && view[n].instances[i].id == b;
      var ups, time := UpstreamsOf(view, n), view[n].instances[i].executeTime;
      PicksMembers(ups, time, result[b]);
      var u :| u in Active(ups) && a == PickId(ups, u, time);
      assert Links(view, u, n, i, (a, b));
    }
    if IsInstanceEdge(view, (a, b)) {
      var u, n, i: nat :| Links(view, u, n, i, (a, b));
      assert HasLinks(view, view.Keys, n);
      PicksMembers(UpstreamsOf(view, n), view[n].instances[i].executeTime, result[b]);
    }
  }

  /** The third-party cron parser: which expressions it accepts and the schedules it makes. */
  datatype Cron = Cron(parse: string -> Option<Schedule>) {
    ghost predicate Valid() {
      forall s: string :: parse(s).Some? ==> Advances(parse(s).value)
    }
  }

  datatype Window = Window(start: int, end: int, now: int, batchId: Id)

  /** The instance lists once all nodes but the pending ones are scheduled, with ids from
      `ids`. */
  ghost predicate Parsed(data: map<Id, Node>, pending: set<Id>, lists: map<Id, seq<Instance>>,
                         times: map<Id, seq<int>>, cron: Cron, window: Window, ids: set<Id>)
  {
    && lists.Keys == data.Keys && times.Keys == data.Keys - pending
    && (forall k :: k in data && k in pending ==> lists[k] == [])
    && (forall k :: k in times ==>
                      && cron.parse(data[k].schedule).Some?
                      && times[k] == Fired(cron.parse(data[k].schedule).value, window.start, window.end)
                      && MadeFor(data[k], times[k], window.now, window.batchId, {}, lists[k]))
    && (forall k :: k in lists ==> IdsOf(lists[k]) <= ids)
    && (forall m, n :: m in lists && n in lists && m != n ==> IdsOf(lists[m]) !! IdsOf(lists[n]))
  }

  lemma ParsedStart(data: map<Id, Node>, lists: map<Id, seq<Instance>>, cron: Cron, window: Window, ids: set<Id>)
    requires lists.Keys == data.Keys && forall k :: k in lists ==> lists[k] == []
    ensures Parsed(data, data.Keys, lists, map[], cron, window, ids)
  {
  }

  lemma ParsedStep(data: map<Id, Node>, pending: set<Id>, lists: map<Id, seq<Instance>>, times: map<Id, seq<int>>,
                   cron: Cron, window: Window, first: set<Id>, taken: set<Id>, issued: set<Id>, k: Id, ts: seq<int>,
                   made: seq<Instance>)
    requires Parsed(data, pending, lists, times, cron, window, taken - first) && k in data && k in pending
    requires cron.parse(data[k].schedule).Some?
    requires ts == Fired(cron.parse(data[k].schedule).value, window.start, window.end)
    requires MadeFor(data[k], ts, window.now, window.batchId, taken, made)
    requires first <= taken <= issued && IdsOf(made) <= issued
    ensures Parsed(data, pending - {k}, lists[k := made], times[k := ts], cron, window, issued - first)
  {
    hide Fired, MadeFor, IdsOf;
    MadeApart(data[k], ts, window.now, window.batchId, taken, made);
  }

  lemma MadeApart(node: Node, times: seq<int>, now: int, batchId: Id, taken: set<Id>, made: seq<Instance>)
    requires MadeFor(node, times, now, batchId, taken, made)
    ensures MadeFor(node, times, now, batchId, {}, made) && IdsOf(made) !! taken
  {
    hide DistinctIds;
  }

  /** Scheduled nodes have ordered, non-empty instance lists, and no id occurs twice. */
  lemma ParsedWellFormed(data: map<Id, Node>, lists: map<Id, seq<Instance>>, times: map<Id, seq<int>>, pending: set<Id>,
                         cron: Cron, window: Window, ids: set<Id>, view: DagView)
    requires Parsed(data, pending, lists, times, cron, window, ids)
    requires view.Keys == data.Keys && forall k :: k in view ==> view[k].instances == lists[k]
    ensures UniqueIds(view)
    ensures forall k :: k in view ==> Ordered(view[k].instances)
    ensures forall k :: k in view && k !in pending ==> view[k].instances != []
  {
    forall k | k in data
      ensures Ordered(lists[k]) && DistinctIds(lists[k]) && (k !in pending ==> lists[k] != [])
    {
      if k in times {
        FiredAscends(cron.parse(data[k].schedule).value, window.start, window.end);
        MadeOrdered(data[k], times[k], window.now, window.batchId, {}, lists[k]);
      }
    }
  }

  // ---- when the instances of a batch are due ----

  ghost function TimesOf(xs: seq<Instance>): (times: seq<int>)
    ensures |times| == |xs|
  {
    seq(|xs|, i requires 0 <= i < |xs| => xs[i].executeTime)
  }

  /** The fire times in the window; a node that never fires there gets one dry run now. */
  ghost function DueTimes(node: Node, cron: Cron, window: Window): seq<int> {
    match cron.parse(node.schedule)
    case None => []
    case Some(s) =>
      var times := Fired(s, window.start, window.end);
      if times == [] then [window.now] else times
  }

  /** Every node has one instance for each of its times. */
  ghost predicate Dated(view: DagView, data: map<Id, Node>, cron: Cron, window: Window) {
    forall k :: k in view ==> k in data && TimesOf(view[k].instances) == DueTimes(data[k], cron, window)
  }

  lemma ParsedDated(data: map<Id, Node>, lists: map<Id, seq<Instance>>, times: map<Id, seq<int>>,
                    cron: Cron, window: Window, ids: set<Id>, view: DagView)
    requires Parsed(data, {}, lists, times, cron, window, ids)
    requires view.Keys == data.Keys && forall k :: k in view ==> view[k].instances == lists[k]
    ensures Dated(view, data, cron, window)
  {
    hide Fired, MadeFor, DistinctIds, IdsOf, TimesOf, DueTimes;
    forall k | k in view
      ensures TimesOf(view[k].instances) == DueTimes(data[k], cron, window)
    {
      assert k in times;
      MadeDated(data[k], cron, window, times[k], lists[k]);
    }
  }

  lemma MadeDated(node: Node, cron: Cron, window: Window, times: seq<int>, made: seq<Instance>)
    requires MadeFor(node, times, window.now, window.batchId, {}, made) && cron.parse(node.schedule).Some?
    requires times == Fired(cron.parse(node.schedule).value, window.start, window.end)
    ensures TimesOf(made) == DueTimes(node, cron, window)
  {
    hide Fired, DistinctIds, IdsOf;
  }

  /** The schedules of all nodes but the pending ones parse. */
  ghost predicate Parseable(cron: Cron, data: map<Id, Node>, pending: set<Id>) {
    forall k :: k in data && k !in pending ==> cron.parse(data[k].schedule).Some?
  }

  ghost predicate Culprit(cron: Cron, data: map<Id, Node>, e: DagError) {
    e.BadSchedule? && e.id in data && cron.parse(data[e.id].schedule).None?
  }

  lemma NothingParsed(cron: Cron, data: map<Id, Node>)
    ensures Parseable(cron, data, data.Keys)
  {
  }

  lemma OneParsed(cron: Cron, data: map<Id, Node>, pending: set<Id>, k: Id)
    requires Parseable(cron, data, pending) && k in data && k in pending
    ensures cron.parse(data[k].schedule).Some? ==> Parseable(cron, data, pending - {k})
    ensures cron.parse(data[k].schedule).None? ==> !Parseable(cron, data, {}) && Culprit(cron, data, BadSchedule(k))
  {
  }

  ghost predicate IsListing(view: DagView, done: set<Id>, list: seq<Instance>) {
    forall x :: x in list <==> exists n :: n in done && n in view && x in view[n].instances
  }

  lemma EmptyListing(view: DagView)
    ensures IsListing(view, {}, []) && DistinctIds([])
  {
  }

  lemma ListingGrows(view: DagView, done: set<Id>, list: seq<Instance>, k: Id)
    requires IsListing(view, done, list) && k in view && k !in done
    ensures IsListing(view, done + {k}, list + view[k].instances)
    ensures UniqueIds(view) && DistinctIds(list) ==> DistinctIds(list + view[k].instances)
  {
    var more := view[k].instances;
    assert forall x :: x in list + more <==> x in list || x in more;
    if UniqueIds(view) && DistinctIds(list) {
      forall i, j | 0 <= i < |list| && 0 <= j < |more|
        ensures list[i].id != more[j].id
      {
        assert list[i] in list && more[j] in more;
        var n :| n in done && n in view && list[i] in view[n].instances;
        assert list[i].id in IdsOf(view[n].instances) && more[j].id in IdsOf(more);
      }
    }
  }

  class NodeDAG {
    var nodes: map<Id, DAGNode>
    const batchId: Id

    constructor (batchId: Id)
      ensures nodes == map[] && this.batchId == batchId
    {
      nodes := map[];
      this.batchId := batchId;
    }

    /** Each node object sits under its own id, and every linked object is the very one
        held in `nodes`. */
    ghost predicate Valid()
      reads this, nodes.Values`ins, nodes.Values`outs
    {
      && (forall k :: k in nodes ==> nodes[k].data.id == k)
      && InsHeld() && OutsHeld()
    }

    ghost predicate InsHeld()
      reads this, nodes.Values`ins
    {
      forall k, u :: k in nodes && u in nodes[k].ins ==> u in nodes && nodes[k].ins[u] == nodes[u]
    }

    ghost predicate OutsHeld()
      reads this, nodes.Values`outs
    {
      forall k, u :: k in nodes && u in nodes[k].outs ==> u in nodes && nodes[k].outs[u] == nodes[u]
    }

    ghost function View(): DagView
      reads this, nodes.Values
    {
      map k | k in nodes :: NodeView(nodes[k].instances, nodes[k].ins.Keys)
    }

    ghost predicate AllOrdered()
      reads this, nodes.Values
    {
      forall k :: k in nodes ==> Ordered(nodes[k].instances)
    }

    ghost predicate Mirrors(data: map<Id, Node>, lists: map<Id, seq<Instance>>)
      reads this, nodes.Values
    {
      && data.Keys == lists.Keys == nodes.Keys
      && (forall k :: k in nodes ==> data[k] == nodes[k].data && nodes[k].data.id == k)
      && (forall k :: k in nodes ==> lists[k] == nodes[k].instances)
    }

    /** A batch's nodes start without instances; each gets those of its schedule, until
        one has a schedule that does not parse. */
    method Parser(cron: Cron, window: Window, uuids: UuidSource)
      returns (err: Option<DagError>, ghost data: map<Id, Node>, ghost lists: map<Id, seq<Instance>>,
               ghost times: map<Id, seq<int>>, ghost pending: set<Id>)
      requires Valid() && uuids.Valid() && cron.Valid() && window.batchId == batchId
      requires forall k :: k in nodes ==> nodes[k].instances == []
      modifies (set k | k in nodes :: nodes[k])`instances, uuids
      ensures uuids.Valid() && old(uuids.issued) <= uuids.issued
      ensures Halfway(cron, window, data, pending, lists, times, uuids.issued - old(uuids.issued))
      ensures err == None ==> pending == {}
      ensures err.Some? ==> Culprit(cron, data, err.value)
    {
      hide *;
      var todo := nodes.Keys;
      times := map[];
      data := map k | k in nodes :: nodes[k].data;
      lists := map k | k in nodes :: nodes[k].instances;
      ghost var first := uuids.issued;
      StartsHalfway(cron, window, first - first, data, lists);
      while todo != {}
        invariant todo <= nodes.Keys && uuids.Valid() && first <= uuids.issued
        invariant Halfway(cron, window, data, todo, lists, times, uuids.issued - first)
      {
        var k :| k in todo;
        err, lists, times := ParseOne(k, nodes[k], cron, window, uuids, first, data, todo, lists, times);
        if err.Some? {
          return err, data, lists, times, todo;
        }
        todo := todo - {k};
      }
      return None, data, lists, times, todo;
    }

    /** All nodes but the pending ones have their instances. */
    ghost predicate Halfway(cron: Cron, window: Window, data: map<Id, Node>, pending: set<Id>,
                            lists: map<Id, seq<Instance>>, times: map<Id, seq<int>>, ids: set<Id>)
      reads this, nodes.Values
    {
      Mirrors(data, lists) && Parsed(data, pending, lists, times, cron, window, ids) && Parseable(cron, data, pending)
    }

    lemma StartsHalfway(cron: Cron, window: Window, ids: set<Id>, data: map<Id, Node>, lists: map<Id, seq<Instance>>)
      requires Valid() && forall k :: k in nodes ==> nodes[k].instances == []
      requires data == map k | k in nodes :: nodes[k].data
      requires lists == map k | k in nodes :: nodes[k].instances
      ensures Halfway(cron, window, data, nodes.Keys, lists, map[], ids)
    {
      assert data.Keys == nodes.Keys;
      ParsedStart(data, lists, cron, window, ids);
      NothingParsed(cron, data);
    }

    lemma StillPending(k: Id, cron: Cron, window: Window, data: map<Id, Node>, pending: set<Id>,
                       lists: map<Id, seq<Instance>>, times: map<Id, seq<int>>, ids: set<Id>)
      requires Halfway(cron, window, data, pending, lists, times, ids) && k in nodes && k in pending
      ensures nodes[k].instances == [] && k in data && data[k] == nodes[k].data
    {
      hide Parseable, MadeFor, Fired;
    }

    method ParseOne(k: Id, node: DAGNode, cron: Cron, window: Window, uuids: UuidSource, ghost first: set<Id>,
                    ghost data: map<Id, Node>, ghost pending: set<Id>, ghost lists0: map<Id, seq<Instance>>,
                    ghost times0: map<Id, seq<int>>)
      returns (err: Option<DagError>, ghost lists: map<Id, seq<Instance>>, ghost times: map<Id, seq<int>>)
      requires uuids.Valid() && cron.Valid() && k in nodes && k in pending && node == nodes[k]
      requires Halfway(cron, window, data, pending, lists0, times0, uuids.issued - first) && first <= uuids.issued
      modifies node`instances, uuids
      ensures uuids.Valid() && old(uuids.issued) <= uuids.issued
      ensures Halfway(cron, window, data, if err == None then pending - {k} else pending, lists, times,
                      uuids.issued - first)
      ensures err.Some? ==> Culprit(cron, data, err.value)
    {
      hide Parsed, MadeFor, Fired, Advances, Parseable, Culprit, IdsOf;
      StillPending(k, cron, window, data, pending, lists0, times0, uuids.issued - first);
      ghost var ts;
      ghost var taken := uuids.issued;
      lists, times := lists0, times0;
      var ok;
      ok, ts := ParseNode(node, cron, window, uuids);
      OneParsed(cron, data, pending, k);
      if ok {
        ParsedStep(data, pending, lists, times, cron, window, first, taken, uuids.issued, k, ts, node.instances);
        lists, times := lists[k := node.instances], times[k := ts];
      }
      err := if ok then None else Some(BadSchedule(k));
    }

    static method ParseNode(node: DAGNode, cron: Cron, window: Window, uuids: UuidSource)
      returns (ok: bool, ghost times: seq<int>)
      requires uuids.Valid() && cron.Valid() && node.instances == []
      modifies node`instances, uuids
      ensures uuids.Valid() && old(uuids.issued) <= uuids.issued
      ensures ok <==> cron.parse(node.data.schedule).Some?
      ensures !ok ==> node.instances == [] && uuids.issued == old(uuids.issued)
      ensures ok ==> times == Fired(cron.parse(node.data.schedule).value, window.start, window.end)
      ensures ok ==> MadeFor(node.data, times, window.now, window.batchId, old(uuids.issued), node.instances)
      ensures ok ==> IdsOf(node.instances) <= uuids.issued
    {
      hide Fired, MadeFor;
      var r := GetSchedulesBetween(cron.parse(node.data.schedule), window.start, window.end);
      if r.Err? {
        return false, [];
      }
      node.CreateInstance(r.value, window.now, window.batchId, uuids);
      assert node.instances[0..] == node.instances;
      return true, r.value;
    }

    /** Links the instances of all nodes; nodes are visited in any order. */
    method BuildInstanceDepend() returns (result: map<Id, seq<Id>>)
      requires Valid() && AllOrdered() && UniqueIds(View())
      ensures DependsOn(View(), nodes.Keys, result)
    {
      hide DependsOn, UniqueIds, NodeLinks, IsMerge, View, Valid, AllOrdered;
      result := map[];
      var pending := nodes.Keys;
      ghost var view := View();
      assert nodes.Keys - pending == {};
      NothingLinked(view);
      while pending != {}
        invariant pending <= nodes.Keys
        invariant DependsOn(view, nodes.Keys - pending, result)
      {
        var k :| k in pending;
        var depend := NodeDepend(k);
        ghost var before := result;
        result := Merge(depend, result);
        MergeNode(view, nodes.Keys - pending, k, depend, before, result);
        assert nodes.Keys - (pending - {k}) == (nodes.Keys - pending) + {k};
        pending := pending - {k};
      }
      assert nodes.Keys - {} == nodes.Keys;
    }

    method NodeDepend(k: Id) returns (depend: map<Id, seq<Id>>)
      requires Valid() && AllOrdered() && UniqueIds(View()) && k in nodes
      ensures NodeLinks(View(), k, depend)
    {
      hide *;
      ViewOfNode(k);
      depend := nodes[k].BuildInstanceDepend();
      LinksOfNode(View(), k, nodes[k].instances, nodes[k].Ups(), depend);
    }

    /** The view shows each node object's own lists, and those of the objects it links. */
    lemma ViewOfNode(k: Id)
      requires Valid() && AllOrdered() && UniqueIds(View()) && k in nodes
      ensures k in View() && View()[k].instances == nodes[k].instances
      ensures nodes[k].Ups() == UpstreamsOf(View(), k)
      ensures Ordered(nodes[k].instances) && DistinctIds(nodes[k].instances)
    {
      hide Ordered, DistinctIds, IdsOf, UpstreamsOf, Valid;
      UpsShown(k);
      assert DistinctIds(View()[k].instances);
    }

    lemma UpsShown(k: Id)
      requires Valid() && k in nodes
      ensures k in View() && nodes[k].Ups() == UpstreamsOf(View(), k)
    {
      assert View()[k].ins == nodes[k].ins.Keys;
    }

    /** Every instance of every node, each once. */
    method GetInstanceList() returns (list: seq<Instance>)
      ensures IsListing(View(), nodes.Keys, list)
      ensures UniqueIds(View()) ==> DistinctIds(list)
    {
      hide IsListing, UniqueIds, DistinctIds;
      list := [];
      var pending := nodes.Keys;
      ghost var view := View();
      EmptyListing(view);
      assert nodes.Keys - pending == {};
      while pending != {}
        invariant pending <= nodes.Keys
        invariant IsListing(view, nodes.Keys - pending, list)
        invariant UniqueIds(view) ==> DistinctIds(list)
      {
        var k :| k in pending;
        assert k in view && view[k].instances == nodes[k].instances;
        ListingGrows(view, nodes.Keys - pending, list, k);
        assert nodes.Keys - (pending - {k}) == (nodes.Keys - pending) + {k};
        list := list + nodes[k].instances;
        pending := pending - {k};
      }
      assert nodes.Keys - {} == nodes.Keys;
    }

    /** The first instance of a node, if the node is known and has any. */
    method GetInstanceById(id: Id) returns (r: Option<Instance>)
      ensures r == if id in nodes && nodes[id].instances != [] then Some(nodes[id].instances[0]) else None
    {
      if id !in nodes || |nodes[id].instances| == 0 {
        return None;
      }
      return Some(nodes[id].instances[0]);
    }
  }
}
