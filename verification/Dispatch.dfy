/** service/dispatchserver/dispatch.go: creating the instances and instance lines of a batch
    and queueing its root. */
module Dispatch {
  import opened Common
  import opened Digraph
  import opened Adjacency
  import opened InstanceLinks
  import opened InstanceDag
  import opened DagBuilder
  import opened GraphBuild
  import LineGraph
  import WorkflowProtocol
  import Q = DelayQueue

  datatype InstanceLine = InstanceLine(id: Id, ahead: Id, behind: Id, batchId: Id)

  datatype CreateError = StoreError | DagFailed(reason: DagError) | NoRootInstance(root: Id) | PublishError

  /** Which of the calls to the database succeed. */
  datatype Outcome = Outcome(existsOk: bool, linesOk: bool, writeOk: bool, commitOk: bool, publishOk: bool)

  // ---- flattening the dependency map into lines ----

  /** The upstreams that the lines into b name, in order. */
  ghost function AheadsFor(lines: seq<InstanceLine>, b: Id): seq<Id>
    decreases |lines|
  {
    if lines == [] then [] else
      var last := lines[|lines| - 1];
      AheadsFor(lines[..|lines| - 1], b) + if last.behind == b then [last.ahead] else []
  }

  lemma AheadsForAppend(lines: seq<InstanceLine>, line: InstanceLine, b: Id)
    ensures AheadsFor(lines + [line], b) == AheadsFor(lines, b) + if line.behind == b then [line.ahead] else []
  {
    assert (lines + [line])[..|lines|] == lines;
  }

  /** Exactly one line per entry of the map, and none else. */
  ghost predicate Flattened(depends: map<Id, seq<Id>>, done: set<Id>, lines: seq<InstanceLine>) {
    forall b :: AheadsFor(lines, b) == if b in done && b in depends then depends[b] else []
  }

  /** Lines of one batch with new, distinct ids. */
  ghost predicate FreshLines(lines: seq<InstanceLine>, batchId: Id, taken: set<Id>, issued: set<Id>) {
    && (forall l :: l in lines ==> l.batchId == batchId && l.id in issued && l.id !in taken)
    && (forall i, j :: 0 <= i < j < |lines| ==> lines[i].id != lines[j].id)
  }

  lemma FreshLineAdded(lines: seq<InstanceLine>, line: InstanceLine, batchId: Id, taken: set<Id>, issued: set<Id>)
    requires FreshLines(lines, batchId, taken, issued) && taken <= issued
    requires line.id !in issued && line.batchId == batchId
    ensures FreshLines(lines + [line], batchId, taken, issued + {line.id})
  {
    assert forall l :: l in lines + [line] <==> l in lines || l == line;
    forall i | 0 <= i < |lines|
      ensures lines[i].id != line.id
    {
      assert lines[i] in lines;
    }
  }

  method AppendLines(lines: seq<InstanceLine>, behind: Id, aheads: seq<Id>, batchId: Id, uuids: UuidSource,
                     ghost taken: set<Id>)
    returns (more: seq<InstanceLine>)
    requires uuids.Valid() && taken <= uuids.issued && FreshLines(lines, batchId, taken, uuids.issued)
    modifies uuids
    ensures uuids.Valid() && old(uuids.issued) <= uuids.issued && FreshLines(more, batchId, taken, uuids.issued)
    ensures forall b :: AheadsFor(more, b) == AheadsFor(lines, b) + if b == behind then aheads else []
  {
    hide AheadsFor, FreshLines;
    more := lines;
    for i := 0 to |aheads|
      invariant uuids.Valid() && old(uuids.issued) <= uuids.issued && FreshLines(more, batchId, taken, uuids.issued)
      invariant forall b :: AheadsFor(more, b) == AheadsFor(lines, b) + if b == behind then aheads[..i] else []
    {
      ghost var issued := uuids.issued;
      var id := uuids.New();
      var line := InstanceLine(id, aheads[i], behind, batchId);
      FreshLineAdded(more, line, batchId, taken, issued);
      forall b
        ensures AheadsFor(more + [line], b) == AheadsFor(lines, b) + if b == behind then aheads[..i + 1] else []
      {
        AheadsForAppend(more, line, b);
        assert aheads[..i + 1] == aheads[..i] + [aheads[i]];
      }
      more := more + [line];
    }
    assert aheads[..|aheads|] == aheads;
  }

  lemma FlattenedMore(depends: map<Id, seq<Id>>, done: set<Id>, lines: seq<InstanceLine>, k: Id,
                      more: seq<InstanceLine>)
    requires Flattened(depends, done, lines) && k in depends && k !in done
    requires forall b :: AheadsFor(more, b) == AheadsFor(lines, b) + if b == k then depends[k] else []
    ensures Flattened(depends, done + {k}, more)
  {
    hide AheadsFor;
  }

  method Flatten(depends: map<Id, seq<Id>>, batchId: Id, uuids: UuidSource) returns (lines: seq<InstanceLine>)
    requires uuids.Valid()
    modifies uuids
    ensures uuids.Valid() && old(uuids.issued) <= uuids.issued
    ensures FreshLines(lines, batchId, old(uuids.issued), uuids.issued)
    ensures Flattened(depends, depends.Keys, lines)
  {
    hide FreshLines, Flattened, AheadsFor;
    lines := [];
    NothingFlattened(depends, batchId, uuids.issued);
    var pending := depends.Keys;
    assert depends.Keys - pending == {};
    while pending != {}
      invariant pending <= depends.Keys
      invariant uuids.Valid() && old(uuids.issued) <= uuids.issued
      invariant FreshLines(lines, batchId, old(uuids.issued), uuids.issued)
      invariant Flattened(depends, depends.Keys - pending, lines)
    {
      var k :| k in pending;
      ghost var before := lines;
      if |depends[k]| > 0 {
        lines := AppendLines(lines, k, depends[k], batchId, uuids, old(uuids.issued));
      }
      FlattenedMore(depends, depends.Keys - pending, before, k, lines);
      assert depends.Keys - (pending - {k}) == (depends.Keys - pending) + {k};
      pending := pending - {k};
    }
    assert depends.Keys - {} == depends.Keys;
  }

  lemma NothingFlattened(depends: map<Id, seq<Id>>, batchId: Id, issued: set<Id>)
    ensures Flattened(depends, {}, []) && FreshLines([], batchId, issued, issued)
  {
  }

  // ---- the lines of a batch are its instance links ----

  ghost function LinkEdges(lines: seq<InstanceLine>): set<Edge> {
    set l | l in lines :: (l.ahead, l.behind)
  }

  lemma {:induction false} AheadsForMembers(lines: seq<InstanceLine>, a: Id, b: Id)
    ensures a in AheadsFor(lines, b) <==> (a, b) in LinkEdges(lines)
    decreases |lines|
  {
    if lines != [] {
      var n := |lines| - 1;
      AheadsForMembers(lines[..n], a, b);
      assert lines == lines[..n] + [lines[n]];
      assert forall l :: l in lines <==> l in lines[..n] || l == lines[n];
      assert LinkEdges(lines) == LinkEdges(lines[..n]) + {(lines[n].ahead, lines[n].behind)};
    }
  }

  ghost predicate DistinctPairs(lines: seq<InstanceLine>) {
    forall i, j :: 0 <= i < j < |lines| ==> (lines[i].ahead, lines[i].behind) != (lines[j].ahead, lines[j].behind)
  }

  lemma {:induction false} DistinctAheadsMakeDistinctPairs(lines: seq<InstanceLine>)
    requires forall b :: Distinct(AheadsFor(lines, b))
    ensures DistinctPairs(lines)
    decreases |lines|
  {
    if lines != [] {
      var n := |lines| - 1;
      forall b
        ensures Distinct(AheadsFor(lines[..n], b))
      {
        var all, init := AheadsFor(lines, b), AheadsFor(lines[..n], b);
        assert init <= all;
        assert forall i :: 0 <= i < |init| ==> init[i] == all[i];
      }
      DistinctAheadsMakeDistinctPairs(lines[..n]);
      var last := lines[n];
      assert AheadsFor(lines, last.behind) == AheadsFor(lines[..n], last.behind) + [last.ahead];
      LastIsNew(AheadsFor(lines[..n], last.behind), last.ahead);
      AheadsForMembers(lines[..n], last.ahead, last.behind);
      forall i | 0 <= i < n
        ensures (lines[i].ahead, lines[i].behind) != (last.ahead, last.behind)
      {
        assert lines[i] in lines[..n];
      }
    }
  }

  lemma LastIsNew(s: seq<Id>, x: Id)
    requires Distinct(s + [x])
    ensures x !in s
  {
    forall i | 0 <= i < |s|
      ensures s[i] != x
    {
      assert (s + [x])[i] == s[i] && (s + [x])[|s|] == x;
    }
  }

  lemma UpstreamsApart(view: DagView, n: Id)
    requires UniqueIds(view) && n in view
    ensures ApartIds(UpstreamsOf(view, n))
  {
  }

  lemma DependsDistinct(view: DagView, depends: map<Id, seq<Id>>, b: Id)
    requires UniqueIds(view) && DependsOn(view, view.Keys, depends) && b in depends
    ensures Distinct(depends[b])
  {
    hide UniqueIds, IsPicks, Distinct;
    var n :| HasLinks(view, view.Keys, n) && b in IdsOf(view[n].instances);
    var i :| 0 <= i < |view[n].instances| && view[n].instances[i].id == b;
    UpstreamsApart(view, n);
    PicksDistinct(UpstreamsOf(view, n), view[n].instances[i].executeTime, depends[b]);
  }

  /** The written lines are exactly the instance links, each once. */
  lemma FlattenedIsExact(view: DagView, depends: map<Id, seq<Id>>, lines: seq<InstanceLine>)
    requires UniqueIds(view) && DependsOn(view, view.Keys, depends) && Flattened(depends, depends.Keys, lines)
    ensures forall e :: e in LinkEdges(lines) <==> IsInstanceEdge(view, e)
    ensures DistinctPairs(lines)
  {
    hide UniqueIds, DependsOn, IsInstanceEdge, LinkEdges, AheadsFor, Distinct;
    forall e: Edge
      ensures e in LinkEdges(lines) <==> IsInstanceEdge(view, e)
    {
      AheadsForMembers(lines, e.0, e.1);
      DependsOnEdges(view, depends, e.0, e.1);
    }
    forall b
      ensures Distinct(AheadsFor(lines, b))
    {
      if b in depends {
        DependsDistinct(view, depends, b);
      } else {
        NothingDistinct();
      }
    }
    DistinctAheadsMakeDistinctPairs(lines);
  }

  lemma NothingDistinct()
    ensures Distinct([])
  {
  }

  // ---- what a batch is ----

  /** The instances and lines written for the nodes shown in `view`. */
  ghost predicate IsBatch(view: DagView, lines: seq<InstanceLine>, list: seq<Instance>) {
    && UniqueIds(view)
    && IsListing(view, view.Keys, list) && DistinctIds(list)
    && (forall e :: e in LinkEdges(lines) <==> IsInstanceEdge(view, e)) && DistinctPairs(lines)
  }

  ghost predicate AllNew(view: DagView, batchId: Id) {
    forall n, x :: n in view && x in view[n].instances ==> x.status == NotReady && x.batchId == batchId
  }

  /** Rows inserted one by one under their ids. */
  ghost function Table(list: seq<Instance>): map<Id, Instance>
    decreases |list|
  {
    if list == [] then map[] else Table(list[..|list| - 1])[list[|list| - 1].id := list[|list| - 1]]
  }

  lemma {:induction false} TableMeaning(list: seq<Instance>)
    requires DistinctIds(list)
    ensures Table(list).Keys == IdsOf(list)
    ensures forall x :: x in list ==> x.id in Table(list) && Table(list)[x.id] == x
    decreases |list|
  {
    if list != [] {
      var n := |list| - 1;
      TableMeaning(list[..n]);
      assert list == list[..n] + [list[n]];
      assert forall x :: x in list <==> x in list[..n] || x == list[n];
      assert list[n].id !in IdsOf(list[..n]);
    }
  }

  /** What one call wrote: the node graph it came from, the root it looked for, the rows. */
  datatype Batch = Batch(view: DagView, root: Id, lines: seq<InstanceLine>, list: seq<Instance>)

  ghost predicate HasBatch(instances: map<Id, Instance>, batchId: Id) {
    exists id :: id in instances && instances[id].batchId == batchId
  }

  lemma WrittenBatchExists(before: map<Id, Instance>, b: Batch, batchId: Id)
    requires IsBatch(b.view, b.lines, b.list) && AllNew(b.view, batchId)
    requires b.view != map[] && forall n :: n in b.view ==> b.view[n].instances != []
    ensures HasBatch(before + Table(b.list), batchId)
  {
    assert b.view.Keys != {};
    var n :| n in b.view.Keys;
    var x := b.view[n].instances[0];
    assert x in b.view[n].instances && x in b.list;
    TableMeaning(b.list);
    assert x.id in before + Table(b.list);
  }

  function RootMessage(rootId: Id, first: Instance, drift: nat): (a: Q.QueueAction)
    ensures a.Publish?
  {
    Q.Publish(WorkflowProtocol.TOPIC, rootId, first.id, first.executeTime + drift, WorkflowProtocol.MAX_RETRY)
  }

  lemma RootMessageIs(rootId: Id, first: Instance, drift: nat)
    ensures RootMessage(rootId, first, drift) ==
            Q.Publish(Id("instance_execute"), rootId, first.id, first.executeTime + drift, 3)
  {
  }

  /** The batch's root is one of its nodes; an unknown root is never queued. */
  ghost predicate HasRoot(b: Batch) {
    b.root in b.view && b.view[b.root].instances != []
  }

  /** The instance that is queued for the root. */
  ghost function FirstId(b: Batch): Id
    requires HasRoot(b)
  {
    b.view[b.root].instances[0].id
  }

  ghost predicate IsQueued(q: Q.Queue, id: nat, payload: Id) {
    id in q && q[id].payload == payload
  }

  lemma RootIsListed(b: Batch)
    requires IsBatch(b.view, b.lines, b.list) && HasRoot(b)
    ensures FirstId(b) in IdsOf(b.list)
  {
    hide UniqueIds, DistinctPairs, DistinctIds, IsInstanceEdge;
    assert b.view[b.root].instances[0] in b.list;
  }

  lemma RootIsQueued(s: Q.QueueState, b: Batch, drift: nat)
    requires HasRoot(b)
    ensures IsQueued(Q.Apply(s, RootMessage(b.root, b.view[b.root].instances[0], drift)).queue, s.nextId, FirstId(b))
    ensures Q.Apply(s, RootMessage(b.root, b.view[b.root].instances[0], drift)).nextId == s.nextId + 1
  {
  }

  lemma StillQueued(s: Q.QueueState, b: Batch, drift: nat, id: nat, payload: Id)
    requires IsQueued(s.queue, id, payload) && id < s.nextId
    ensures HasRoot(b) ==>
              IsQueued(Q.Apply(s, RootMessage(b.root, b.view[b.root].instances[0], drift)).queue, id, payload)
  {
  }

  // ---- deleted nodes ----

  ghost function Undeleted(stored: seq<Node>): seq<Node>
    decreases |stored|
  {
    if stored == [] then []
    else Undeleted(stored[..|stored| - 1]) + [stored[|stored| - 1].(deleted := false)]
  }

  ghost predicate UndeletedAt(stored: seq<Node>, k: Id) {
    var n := LastWithId(stored, k);
    LastWithId(Undeleted(stored), k) == if n.Some? then Some(n.value.(deleted := false)) else None
  }

  lemma {:induction false} UndeletedKeeps(stored: seq<Node>, k: Id)
    ensures UndeletedAt(stored, k)
    decreases |stored|
  {
    if stored != [] {
      hide NodeIds;
      var all, init := Undeleted(stored), Undeleted(stored[..|stored| - 1]);
      UndeletedKeeps(stored[..|stored| - 1], k);
      assert all[..|all| - 1] == init && all[|all| - 1] == stored[|stored| - 1].(deleted := false);
    }
  }

  lemma SameIds(stored: seq<Node>)
    requires forall k :: UndeletedAt(stored, k)
    ensures NodeIds(Undeleted(stored)) == NodeIds(stored)
  {
    hide NodeIds, LastWithId, Undeleted;
    forall k
      ensures k in NodeIds(Undeleted(stored)) <==> k in NodeIds(stored)
    {
      assert UndeletedAt(stored, k);
    }
  }

  lemma SameTimes(n: Node, cron: Cron, window: Window)
    ensures DueTimes(n.(deleted := false), cron, window) == DueTimes(n, cron, window)
  {
  }

  // ---- the node graph of a new batch ----

  /** The node sets that feed each node. */
  ghost function InsOf(dag: NodeDAG): map<Id, set<Id>>
    reads dag, dag.nodes.Values`ins
  {
    map k | k in dag.nodes :: dag.nodes[k].ins.Keys
  }

  ghost function InsEdges(ins: map<Id, set<Id>>): set<Edge> {
    set n, u | n in ins && u in ins[n] :: (u, n)
  }

  ghost function DataOf(dag: NodeDAG): map<Id, Node>
    reads dag
  {
    map k | k in dag.nodes :: dag.nodes[k].data
  }

  lemma ViewEdges(dag: NodeDAG)
    ensures NodeEdges(dag.View()) == InsEdges(InsOf(dag))
  {
    forall e: Edge
      ensures e in NodeEdges(dag.View()) <==> e in InsEdges(InsOf(dag))
    {
      assert e in NodeEdges(dag.View()) <==> e.1 in dag.View() && e.0 in dag.View()[e.1].ins;
      assert e in InsEdges(InsOf(dag)) <==> e.1 in InsOf(dag) && e.0 in InsOf(dag)[e.1];
    }
  }

  lemma ShownEdges(builder: InstanceDAGBuilder, lines: seq<Line>)
    requires builder.Shows(lines)
    ensures InsEdges(InsOf(builder.dag)) == Inside(LineGraph.LineEdges(lines), builder.dag.nodes.Keys)
  {
    var ins := InsOf(builder.dag);
    forall e: Edge
      ensures e in InsEdges(ins) <==> e in Inside(LineGraph.LineEdges(lines), builder.dag.nodes.Keys)
    {
      assert e in InsEdges(ins) <==> e.1 in ins && e.0 in ins[e.1];
      assert e.0 in Aheads(lines, e.1) <==> e in LineGraph.LineEdges(lines) by {
        AheadsAreEdges(lines, e);
      }
    }
  }

  lemma AheadsAreEdges(lines: seq<Line>, e: Edge)
    ensures e.0 in Aheads(lines, e.1) <==> e in LineGraph.LineEdges(lines)
  {
    if e.0 in Aheads(lines, e.1) {
      var l :| l in lines && l.behind == e.1 && l.ahead == e.0;
      assert e == (l.ahead, l.behind);
    }
  }

  ghost predicate IdsWithin(view: DagView, ids: set<Id>) {
    forall n :: n in view ==> IdsOf(view[n].instances) <= ids
  }

  lemma ParsedNew(data: map<Id, Node>, lists: map<Id, seq<Instance>>, times: map<Id, seq<int>>, cron: Cron,
                  window: Window, ids: set<Id>, view: DagView)
    requires Parsed(data, {}, lists, times, cron, window, ids)
    requires view.Keys == data.Keys && forall k :: k in view ==> view[k].instances == lists[k]
    ensures AllNew(view, window.batchId) && IdsWithin(view, ids)
  {
    forall n, x | n in view && x in view[n].instances
      ensures x.status == NotReady && x.batchId == window.batchId
    {
      assert n in times && MadeFor(data[n], times[n], window.now, window.batchId, {}, lists[n]);
    }
  }

  lemma ListedIdsWithin(view: DagView, list: seq<Instance>, ids: set<Id>)
    requires IsListing(view, view.Keys, list) && IdsWithin(view, ids)
    ensures IdsOf(list) <= ids
  {
    forall x | x in list
      ensures x.id in ids
    {
      var n :| n in view && x in view[n].instances;
      assert x.id in IdsOf(view[n].instances);
    }
  }

  lemma EndpointsAreEnds(lines: seq<Line>)
    ensures Endpoints(lines) == Ends(LineGraph.LineEdges(lines))
  {
    var E := LineGraph.LineEdges(lines);
    forall l | l in lines
      ensures l.ahead in Ends(E) && l.behind in Ends(E)
    {
      assert (l.ahead, l.behind) in E;
    }
  }

  lemma KeysOfView(dag: NodeDAG)
    ensures dag.View().Keys == dag.nodes.Keys
  {
  }

  lemma MadeIsBatch(view: DagView, depends: map<Id, seq<Id>>, lines: seq<InstanceLine>, list: seq<Instance>)
    requires UniqueIds(view) && DependsOn(view, view.Keys, depends) && Flattened(depends, depends.Keys, lines)
    requires IsListing(view, view.Keys, list) && DistinctIds(list)
    ensures IsBatch(view, lines, list)
  {
    hide UniqueIds, DependsOn, Flattened, IsListing, DistinctIds, IsInstanceEdge;
    FlattenedIsExact(view, depends, lines);
  }

  class NodeServer {
    const canvas: LineGraph.NodeServer
    const uuids: UuidSource
    const queue: Q.Consumer
    var instances: map<Id, Instance>
    var lines: seq<InstanceLine>

    constructor (canvas: LineGraph.NodeServer, uuids: UuidSource, queue: Q.Consumer)
      ensures this.canvas == canvas && this.uuids == uuids && this.queue == queue
      ensures instances == map[] && lines == []
    {
      this.canvas, this.uuids, this.queue := canvas, uuids, queue;
      instances, lines := map[], [];
    }

    /** One transaction: both tables get all rows, or neither gets any. The answer is that of
        the two inserts; the error of the commit is dropped. */
    method WriteBatch(depend: seq<InstanceLine>, list: seq<Instance>, ok: bool, commitOk: bool)
      returns (err: Option<CreateError>)
      modifies `instances, `lines
      ensures err == if ok then None else Some(StoreError)
      ensures lines == if ok && commitOk then old(lines) + depend else old(lines)
      ensures instances == if ok && commitOk then old(instances) + Table(list) else old(instances)
    {
      if !ok {
        return Some(StoreError);
      }
      if !commitOk {
        return None;
      }
      lines := lines + depend;
      for i := 0 to |list|
        invariant instances == old(instances) + Table(list[..i])
        invariant lines == old(lines) + depend
      {
        assert list[..i + 1][..i] == list[..i];
        instances := instances[list[i].id := list[i]];
      }
      assert list[..|list|] == list;
      return None;
    }

    /** Every node has its instances, and the nodes are linked as the stored lines say. */
    ghost predicate Prepared(dag: NodeDAG)
      reads canvas, dag, dag.nodes.Values
    {
      && dag.Valid() && dag.AllOrdered() && UniqueIds(dag.View()) && AllNew(dag.View(), dag.batchId)
      && NodeEdges(dag.View()) == Inside(LineGraph.TableEdges(canvas.lines), dag.nodes.Keys)
      && forall k :: k in dag.nodes ==> dag.nodes[k].instances != []
    }

    ghost predicate Blank(dag: NodeDAG)
      reads canvas, dag, dag.nodes.Values
    {
      && dag.Valid() && InsEdges(InsOf(dag)) == Inside(LineGraph.TableEdges(canvas.lines), dag.nodes.Keys)
      && forall k :: k in dag.nodes ==> dag.nodes[k].instances == []
    }

    /** The nodes of a batch: the root and all line ends, as far as they are stored. */
    ghost function BatchNodes(nodeId: Id, stored: seq<Node>): set<Id>
      reads canvas
    {
      ({nodeId} + Ends(LineGraph.TableEdges(canvas.lines))) * NodeIds(stored)
    }

    ghost function BatchData(nodeId: Id, stored: seq<Node>): map<Id, Node>
      reads canvas
    {
      map k | k in BatchNodes(nodeId, stored) :: LastWithId(stored, k).value
    }

    /** Every node of the batch has a schedule that parses. */
    ghost predicate AllParse(nodeId: Id, stored: seq<Node>, cron: Cron)
      reads canvas
    {
      var data := BatchData(nodeId, stored);
      forall k :: k in data ==> cron.parse(data[k].schedule).Some?
    }

    /** The node graph of the stored lines and nodes, still without instances. */
    method BuildGraph(nodeId: Id, batchId: Id, stored: Option<seq<Node>>, linesOk: bool)
      returns (err: Option<CreateError>, rootId: Id, dag: NodeDAG)
      ensures fresh(dag) && dag.batchId == batchId && forall k :: k in dag.nodes ==> fresh(dag.nodes[k])
      ensures err == if !linesOk then Some(StoreError)
                     else if stored.None? then Some(DagFailed(StoreFailed))
                     else None
      ensures err == None ==> Blank(dag)
      ensures err == None ==> rootId == if nodeId in NodeIds(stored.value) then nodeId else Id("")
      ensures err == None ==> dag.nodes.Keys == BatchNodes(nodeId, stored.value)
      ensures err == None ==> DataOf(dag) == BatchData(nodeId, stored.value)
    {
      hide NodeIds, LastWithId, LineGraph.LineEdges, LineGraph.TableEdges, Endpoints, Ends, InsEdges, InsOf,
           InstanceDAGBuilder.Shows, NodeDAG.Valid;
      rootId := Id("");
      if !linesOk {
        dag := new NodeDAG(batchId);
        return Some(StoreError), rootId, dag;
      }
      var rows := canvas.ListLines();
      EndpointsAreEnds(rows);
      var builder := new InstanceDAGBuilder(nodeId, batchId);
      dag := builder.dag;
      var root, failed := builder.Build(rows, stored);
      if failed.Some? {
        dag := new NodeDAG(batchId);
        return Some(DagFailed(failed.value)), rootId, dag;
      }
      rootId := if root.Some? then root.value.id else Id("");
      ShownEdges(builder, rows);
      err := None;
    }

    /** Schedules the instances of every node. */
    method Schedule(dag: NodeDAG, window: Window, cron: Cron) returns (failed: Option<DagError>)
      requires Blank(dag) && uuids.Valid() && cron.Valid() && dag.batchId == window.batchId
      modifies (set k | k in dag.nodes :: dag.nodes[k])`instances, uuids
      ensures uuids.Valid() && old(uuids.issued) <= uuids.issued
      ensures failed == None <==> forall k :: k in dag.nodes ==> cron.parse(dag.nodes[k].data.schedule).Some?
      ensures failed == None ==> Prepared(dag) && Dated(dag.View(), DataOf(dag), cron, window)
                                 && IdsWithin(dag.View(), uuids.issued - old(uuids.issued))
    {
      hide Parsed, Prepared, LineGraph.TableEdges, InsEdges, InsOf, UniqueIds, NodeDAG.Valid, NodeDAG.Mirrors,
           NodeDAG.Halfway, Cron.Valid, UuidSource.Valid, Culprit, Dated, IdsWithin;
      ghost var ins, first := InsOf(dag), uuids.issued;
      ghost var data, lists, times, pending;
      failed, data, lists, times, pending := dag.Parser(cron, window, uuids);
      ParserEnds(dag, cron, window, data, pending, lists, times, uuids.issued - first, failed);
      if failed == None {
        assert InsOf(dag) == ins;
        ScheduledIsPrepared(dag, data, lists, times, cron, window, uuids.issued - first);
      }
    }

    lemma ParserEnds(dag: NodeDAG, cron: Cron, window: Window, data: map<Id, Node>, pending: set<Id>,
                     lists: map<Id, seq<Instance>>, times: map<Id, seq<int>>, ids: set<Id>, err: Option<DagError>)
      requires dag.Halfway(cron, window, data, pending, lists, times, ids)
      requires if err == None then pending == {} else Culprit(cron, data, err.value)
      ensures err == None <==> forall k :: k in dag.nodes ==> cron.parse(dag.nodes[k].data.schedule).Some?
      ensures err == None ==> dag.Mirrors(data, lists) && Parsed(data, {}, lists, times, cron, window, ids)
    {
      hide Parsed;
    }

    lemma ScheduledIsPrepared(dag: NodeDAG, data: map<Id, Node>, lists: map<Id, seq<Instance>>,
                              times: map<Id, seq<int>>, cron: Cron, window: Window, ids: set<Id>)
      requires dag.batchId == window.batchId && dag.Valid() && dag.Mirrors(data, lists)
      requires Parsed(data, {}, lists, times, cron, window, ids)
      requires InsEdges(InsOf(dag)) == Inside(LineGraph.TableEdges(canvas.lines), dag.nodes.Keys)
      ensures Prepared(dag) && Dated(dag.View(), DataOf(dag), cron, window) && IdsWithin(dag.View(), ids)
    {
      hide Parsed, NodeDAG.Valid, LineGraph.TableEdges, InsEdges, NodeEdges, UniqueIds, AllNew, Ordered, Inside, Dated,
           IdsWithin;
      ViewEdges(dag);
      ParsedWellFormed(data, lists, times, {}, cron, window, ids, dag.View());
      ParsedNew(data, lists, times, cron, window, ids, dag.View());
      ParsedDated(data, lists, times, cron, window, ids, dag.View());
      assert data == DataOf(dag);
    }

    /** The lines and instances of a batch, nothing written yet. */
    method MakeBatch(dag: NodeDAG) returns (depend: seq<InstanceLine>, list: seq<Instance>)
      requires dag.Valid() && dag.AllOrdered() && UniqueIds(dag.View()) && uuids.Valid()
      modifies uuids
      ensures uuids.Valid() && old(uuids.issued) <= uuids.issued
      ensures IsBatch(dag.View(), depend, list) && FreshLines(depend, dag.batchId, old(uuids.issued), uuids.issued)
    {
      hide *;
      var depends := dag.BuildInstanceDepend();
      KeysOfView(dag);
      depend := Flatten(depends, dag.batchId, uuids);
      list := dag.GetInstanceList();
      MadeIsBatch(dag.View(), depends, depend, list);
    }

    /** Writes the batch, and only then looks for the root's first instance to queue. It is
        queued even if the commit of the batch failed. */
    method BatchCreateInstance(rootId: Id, dag: NodeDAG, outcome: Outcome, drift: nat)
      returns (err: Option<CreateError>, ghost depend: seq<InstanceLine>, ghost list: seq<Instance>)
      requires dag.Valid() && dag.AllOrdered() && UniqueIds(dag.View()) && uuids.Valid()
      modifies `instances, `lines, uuids, queue
      ensures uuids.Valid() && old(uuids.issued) <= uuids.issued
      ensures IsBatch(dag.View(), depend, list) && FreshLines(depend, dag.batchId, old(uuids.issued), uuids.issued)
      ensures lines == if outcome.writeOk && outcome.commitOk then old(lines) + depend else old(lines)
      ensures instances == if outcome.writeOk && outcome.commitOk then old(instances) + Table(list) else old(instances)
      ensures err == if !outcome.writeOk then Some(StoreError)
                     else if rootId !in dag.nodes || dag.nodes[rootId].instances == [] then Some(NoRootInstance(rootId))
                     else if !outcome.publishOk then Some(PublishError)
                     else None
      ensures queue.nextId == old(queue.nextId) + if err == None then 1 else 0
      ensures queue.State() ==
              if err != None then old(queue.State())
              else Q.Apply(old(queue.State()), RootMessage(rootId, dag.nodes[rootId].instances[0], drift))
      ensures err == None ==>
                var first := dag.nodes[rootId].instances[0];
                var message := Q.DelayMessage(rootId, Id("instance_execute"), first.executeTime + drift, Q.Pending,
                                              first.id, 0, 3);
                queue.queue == old(queue.queue)[old(queue.nextId) := message]
    {
      hide *;
      var dependLines, rows := MakeBatch(dag);
      depend, list := dependLines, rows;
      err := WriteBatch(dependLines, rows, outcome.writeOk, outcome.commitOk);
      if err != None {
        return;
      }
      var first := dag.GetInstanceById(rootId);
      if first.None? {
        return Some(NoRootInstance(rootId)), depend, list;
      }
      if !outcome.publishOk {
        return Some(PublishError), depend, list;
      }
      RootMessageIs(rootId, first.value, drift);
      queue.PublishRow(RootMessage(rootId, first.value, drift));
      err := None;
    }

    method InstanceExists(batchId: Id) returns (exist: bool)
      ensures exist <==> HasBatch(instances, batchId)
    {
      var rows := set id | id in instances && instances[id].batchId == batchId;
      exist := |rows| > 0;
      if !exist {
        assert rows == {};
      } else {
        assert rows != {};
      }
      assert forall id :: id in rows <==> id in instances && instances[id].batchId == batchId;
    }

    /** Whether a call gets past the write of the batch. */
    ghost predicate Passes(nodeId: Id, batchId: Id, cron: Cron, stored: Option<seq<Node>>, outcome: Outcome)
      reads this, canvas
    {
      && outcome.existsOk && !HasBatch(instances, batchId) && outcome.linesOk && stored.Some?
      && AllParse(nodeId, stored.value, cron) && outcome.writeOk
    }

    /** The node whose first instance is queued: the root, or the empty id if it is not stored. */
    ghost function RootId(nodeId: Id, stored: seq<Node>): Id {
      if nodeId in NodeIds(stored) then nodeId else Id("")
    }

    /** Creates a batch at most once. It is stored exactly when the call gets past the write
        and the commit holds, whether or not the root can be queued; and the root is queued
        whether or not the commit holds. */
    method InstanceCreate(nodeId: Id, window: Window, cron: Cron, stored: Option<seq<Node>>, outcome: Outcome,
                          drift: nat)
      returns (err: Option<CreateError>, ghost made: Option<Batch>)
      requires uuids.Valid() && cron.Valid()
      modifies `instances, `lines, uuids, queue
      ensures uuids.Valid() && old(uuids.issued) <= uuids.issued
      ensures made.Some? <==> old(Passes(nodeId, window.batchId, cron, stored, outcome))
      ensures made.Some? ==> Written(made.value, nodeId, window, cron, stored)
                             && IdsOf(made.value.list) <= uuids.issued - old(uuids.issued)
      ensures lines == old(lines) + if made.Some? && outcome.commitOk then made.value.lines else []
      ensures instances == old(instances) + if made.Some? && outcome.commitOk then Table(made.value.list) else map[]
      ensures HasBatch(instances, window.batchId) <==>
                HasBatch(old(instances), window.batchId)
                || (made.Some? && outcome.commitOk && made.value.view != map[])
      ensures err == None <==>
                || (outcome.existsOk && HasBatch(old(instances), window.batchId))
                || (&& made.Some? && outcome.publishOk
                    && RootId(nodeId, stored.value) in BatchNodes(nodeId, stored.value))
      ensures queue.nextId == old(queue.nextId) + if err == None && made.Some? then 1 else 0
      ensures queue.State() == if err != None || made == None then old(queue.State()) else
                var b := made.value;
                Q.Apply(old(queue.State()), RootMessage(b.root, b.view[b.root].instances[0], drift))
    {
      hide IsBatch, AllNew, Table, HasBatch, Written, NodeEdges, UniqueIds, Ends, NodeIds, Blank, RootMessage,
           FreshLines, AllParse, BatchData, NodeDAG.Valid, NodeDAG.AllOrdered, LineGraph.TableEdges, UuidSource.Valid,
           Cron.Valid, Q.Apply, Inside, Dated, IdsWithin, IdsOf, Prepared, BatchNodes, RootId;
      ghost var first := uuids.issued;
      made := None;
      if !outcome.existsOk {
        return Some(StoreError), made;
      }
      var exist := InstanceExists(window.batchId);
      if exist {
        return None, made;
      }
      var rootId, dag;
      err, rootId, dag := Prepare(nodeId, window, cron, stored, outcome.linesOk);
      if err != None {
        return;
      }
      err, made := WriteAndQueue(rootId, dag, uuids.issued - first, nodeId, window, cron, stored, outcome, drift);
    }

    /** The batch of a scheduled node graph, written and its root queued. */
    method WriteAndQueue(rootId: Id, dag: NodeDAG, ghost ids: set<Id>, nodeId: Id, window: Window, cron: Cron,
                         stored: Option<seq<Node>>, outcome: Outcome, drift: nat)
      returns (err: Option<CreateError>, ghost made: Option<Batch>)
      requires uuids.Valid() && Prepared(dag) && dag.batchId == window.batchId && !HasBatch(instances, window.batchId)
      requires stored.Some? && rootId == RootId(nodeId, stored.value)
      requires dag.nodes.Keys == BatchNodes(nodeId, stored.value)
      requires Dated(dag.View(), BatchData(nodeId, stored.value), cron, window) && IdsWithin(dag.View(), ids)
      modifies `instances, `lines, uuids, queue
      ensures uuids.Valid() && old(uuids.issued) <= uuids.issued
      ensures made.Some? <==> outcome.writeOk
      ensures made.Some? ==> Written(made.value, nodeId, window, cron, stored) && IdsOf(made.value.list) <= ids
      ensures lines == old(lines) + if made.Some? && outcome.commitOk then made.value.lines else []
      ensures instances == old(instances) + if made.Some? && outcome.commitOk then Table(made.value.list) else map[]
      ensures HasBatch(instances, window.batchId) <==>
                made.Some? && outcome.commitOk && made.value.view != map[]
      ensures err == None <==>
                made.Some? && outcome.publishOk && RootId(nodeId, stored.value) in BatchNodes(nodeId, stored.value)
      ensures queue.nextId == old(queue.nextId) + if err == None then 1 else 0
      ensures err == None ==> made.value.root in made.value.view
                              && made.value.view[made.value.root].instances != []
      ensures queue.State() == if err != None then old(queue.State()) else
                var b := made.value;
                Q.Apply(old(queue.State()), RootMessage(b.root, b.view[b.root].instances[0], drift))
    {
      hide IsBatch, AllNew, Table, HasBatch, Written, NodeEdges, UniqueIds, Ends, NodeIds, RootMessage, FreshLines,
           BatchData, NodeDAG.Valid, NodeDAG.AllOrdered, LineGraph.TableEdges, UuidSource.Valid, Q.Apply, Dated,
           IdsWithin, IdsOf, BatchNodes, RootId;
      ghost var depend, list;
      err, depend, list := BatchCreateInstance(rootId, dag, outcome, drift);
      made := None;
      if outcome.writeOk {
        ghost var batch := Batch(dag.View(), rootId, depend, list);
        WrittenNow(dag, nodeId, window, cron, stored, batch);
        BatchIdsWithin(batch, ids);
        if outcome.commitOk {
          WrittenIsNew(batch, nodeId, window, cron, stored);
          WrittenExists(old(instances), batch, window.batchId);
        }
        made := Some(batch);
      }
    }

    lemma WrittenIsNew(b: Batch, nodeId: Id, window: Window, cron: Cron, stored: Option<seq<Node>>)
      requires Written(b, nodeId, window, cron, stored)
      ensures IsBatch(b.view, b.lines, b.list) && AllNew(b.view, window.batchId)
      ensures forall n :: n in b.view ==> b.view[n].instances != []
    {
      hide IsBatch, AllNew;
    }

    /** The node graph with its instances, or the first error on the way. */
    method Prepare(nodeId: Id, window: Window, cron: Cron, stored: Option<seq<Node>>, linesOk: bool)
      returns (err: Option<CreateError>, rootId: Id, dag: NodeDAG)
      requires uuids.Valid() && cron.Valid()
      modifies uuids
      ensures uuids.Valid() && old(uuids.issued) <= uuids.issued && fresh(dag) && dag.batchId == window.batchId
      ensures err == None <==> linesOk && stored.Some? && AllParse(nodeId, stored.value, cron)
      ensures err == None ==> Prepared(dag) && rootId == RootId(nodeId, stored.value)
      ensures err == None ==> dag.nodes.Keys == BatchNodes(nodeId, stored.value)
                              && Dated(dag.View(), BatchData(nodeId, stored.value), cron, window)
                              && IdsWithin(dag.View(), uuids.issued - old(uuids.issued))
    {
      hide Ends, NodeIds, Blank, Prepared, NodeDAG.Valid, NodeDAG.AllOrdered, LineGraph.TableEdges, UuidSource.Valid,
           Cron.Valid, BatchNodes, Dated, IdsWithin, LastWithId;
      err, rootId, dag := BuildGraph(nodeId, window.batchId, stored, linesOk);
      if err != None {
        return;
      }
      SameSchedules(dag, nodeId, stored.value, cron);
      var failed := Schedule(dag, window, cron);
      if failed.Some? {
        err := Some(DagFailed(failed.value));
      }
    }

    lemma SameSchedules(dag: NodeDAG, nodeId: Id, stored: seq<Node>, cron: Cron)
      requires DataOf(dag) == BatchData(nodeId, stored)
      ensures AllParse(nodeId, stored, cron) <==>
                forall k :: k in dag.nodes ==> cron.parse(dag.nodes[k].data.schedule).Some?
    {
      hide BatchData;
      assert DataOf(dag).Keys == dag.nodes.Keys;
      assert forall k :: k in dag.nodes ==> DataOf(dag)[k] == dag.nodes[k].data;
    }

    lemma WrittenNow(dag: NodeDAG, nodeId: Id, window: Window, cron: Cron, stored: Option<seq<Node>>, b: Batch)
      requires Prepared(dag) && b.view == dag.View() && IsBatch(b.view, b.lines, b.list) && stored.Some?
      requires dag.batchId == window.batchId && b.root == RootId(nodeId, stored.value)
      requires dag.nodes.Keys == BatchNodes(nodeId, stored.value)
      requires Dated(dag.View(), BatchData(nodeId, stored.value), cron, window)
      ensures Written(b, nodeId, window, cron, stored)
      ensures b.view.Keys == dag.nodes.Keys
      ensures forall n :: n in dag.nodes ==> b.view[n].instances == dag.nodes[n].instances
    {
      hide IsBatch, AllNew, NodeEdges, LineGraph.TableEdges, NodeIds, Ends, UniqueIds, NodeDAG.Valid, Inside, Dated,
           BatchNodes, BatchData;
      KeysOfView(dag);
    }

    lemma BatchIdsWithin(b: Batch, ids: set<Id>)
      requires IsBatch(b.view, b.lines, b.list) && IdsWithin(b.view, ids)
      ensures IdsOf(b.list) <= ids
    {
      hide UniqueIds, IdsWithin, IsListing, DistinctIds, DistinctPairs;
      ListedIdsWithin(b.view, b.list, ids);
    }

    lemma WrittenExists(before: map<Id, Instance>, b: Batch, batchId: Id)
      requires !HasBatch(before, batchId) && IsBatch(b.view, b.lines, b.list) && AllNew(b.view, batchId)
      requires forall n :: n in b.view ==> b.view[n].instances != []
      ensures HasBatch(before + Table(b.list), batchId) <==> b.view != map[]
    {
      TableMeaning(b.list);
      if b.view != map[] {
        WrittenBatchExists(before, b, batchId);
      } else {
        assert forall x :: x !in b.list;
        assert Table(b.list).Keys == {};
      }
    }

    /** The root can be queued: the queue works and the root is a stored node. */
    ghost predicate RootQueues(nodeId: Id, stored: seq<Node>, outcome: Outcome)
      reads canvas
    {
      outcome.publishOk && RootId(nodeId, stored) in BatchNodes(nodeId, stored)
    }

    /** The batch is stored and its root is not queued. */
    ghost predicate Stranded(nodeId: Id, batchId: Id, cron: Cron, stored: Option<seq<Node>>, outcome: Outcome)
      reads this, canvas
    {
      && Passes(nodeId, batchId, cron, stored, outcome) && outcome.commitOk
      && BatchNodes(nodeId, stored.value) != {} && !RootQueues(nodeId, stored.value, outcome)
    }

    /** The root is queued and its batch is not stored. */
    ghost predicate Unstored(nodeId: Id, batchId: Id, cron: Cron, stored: Option<seq<Node>>, outcome: Outcome)
      reads this, canvas
    {
      && Passes(nodeId, batchId, cron, stored, outcome) && !outcome.commitOk
      && RootQueues(nodeId, stored.value, outcome)
    }

    /** A call and, later, another call for the same batch. If the first call strands the
        batch, the second reports success and changes nothing, so the batch never starts; and
        a stored batch without a queued root was stranded by one of the calls. */
    method CreateAndRetry(nodeId: Id, window: Window, cron: Cron, stored: Option<seq<Node>>, first: Outcome,
                          window2: Window, stored2: Option<seq<Node>>, second: Outcome, drift: nat)
      returns (err: Option<CreateError>)
      requires uuids.Valid() && cron.Valid() && window2.batchId == window.batchId && second.existsOk
      requires !HasBatch(instances, window.batchId)
      modifies `instances, `lines, uuids, queue
      ensures old(Stranded(nodeId, window.batchId, cron, stored, first)) ==>
                err == None && HasBatch(instances, window.batchId) && queue.State() == old(queue.State())
      ensures HasBatch(instances, window.batchId) && queue.nextId == old(queue.nextId) ==>
                || old(Stranded(nodeId, window.batchId, cron, stored, first))
                || old(Stranded(nodeId, window.batchId, cron, stored2, second))
    {
      hide HasBatch, AllParse, Written, Q.Apply, RootMessage, Table, UuidSource.Valid, Cron.Valid, BatchNodes, NodeIds,
           IdsOf;
      ghost var made;
      err, made := InstanceCreate(nodeId, window, cron, stored, first, drift);
      NodesWritten(made, nodeId, window, cron, stored);
      err, made := InstanceCreate(nodeId, window2, cron, stored2, second, drift);
      NodesWritten(made, nodeId, window2, cron, stored2);
    }

    /** A call whose commit is lost queues a root that is no stored instance and never becomes
        one: a later call for the batch makes it anew, under other ids. */
    method CreateAfterLostCommit(nodeId: Id, window: Window, cron: Cron, stored: Option<seq<Node>>, first: Outcome,
                                 window2: Window, stored2: Option<seq<Node>>, second: Outcome, drift: nat)
      returns (err: Option<CreateError>, ghost lost: Batch, ghost again: Option<Batch>)
      requires uuids.Valid() && cron.Valid() && window2.batchId == window.batchId
      requires Unstored(nodeId, window.batchId, cron, stored, first)
      requires instances.Keys <= uuids.issued && forall k :: k in queue.queue ==> k < queue.nextId
      modifies `instances, `lines, uuids, queue
      ensures HasRoot(lost) && IsQueued(queue.queue, old(queue.nextId), FirstId(lost))
      ensures FirstId(lost) !in instances
      ensures again.Some? <==> old(Passes(nodeId, window.batchId, cron, stored2, second))
      ensures again.Some? ==> IdsOf(again.value.list) !! IdsOf(lost.list)
      ensures instances == old(instances) + if again.Some? && second.commitOk then Table(again.value.list) else map[]
      ensures err == None <==> again.Some? && RootQueues(nodeId, stored2.value, second)
    {
      hide HasBatch, AllParse, Written, Q.Apply, RootMessage, Table, UuidSource.Valid, Cron.Valid, BatchNodes, NodeIds,
           IdsOf, IsQueued;
      ghost var made;
      ghost var before := queue.State();
      err, made := InstanceCreate(nodeId, window, cron, stored, first, drift);
      lost := made.value;
      NodesWritten(made, nodeId, window, cron, stored);
      RootIsQueued(before, lost, drift);
      RootIsListed(lost);
      ghost var between := queue.State();
      err, again := InstanceCreate(nodeId, window2, cron, stored2, second, drift);
      if again.Some? {
        NodesWritten(again, nodeId, window2, cron, stored2);
        RowsListed(again.value);
        StillQueued(between, again.value, drift, before.nextId, FirstId(lost));
      }
    }

    lemma RowsListed(b: Batch)
      requires IsBatch(b.view, b.lines, b.list)
      ensures Table(b.list).Keys == IdsOf(b.list)
    {
      hide UniqueIds, IsListing, DistinctPairs;
      TableMeaning(b.list);
    }

    lemma NodesWritten(made: Option<Batch>, nodeId: Id, window: Window, cron: Cron, stored: Option<seq<Node>>)
      requires made.Some? ==> Written(made.value, nodeId, window, cron, stored)
      ensures made.Some? ==> stored.Some? && made.value.root == RootId(nodeId, stored.value)
                             && (made.value.view == map[] <==> BatchNodes(nodeId, stored.value) == {})
                             && IsBatch(made.value.view, made.value.lines, made.value.list)
                             && (made.value.root in BatchNodes(nodeId, stored.value) <==> HasRoot(made.value))
    {
      hide IsBatch, AllNew, NodeEdges, Ends, NodeIds, LineGraph.TableEdges, BatchNodes, Inside, Dated;
    }

    /** What a call wrote: the stored nodes linked as the stored lines say, one instance for
        each time a node is due, and one line for each instance link. */
    ghost predicate Written(b: Batch, nodeId: Id, window: Window, cron: Cron, stored: Option<seq<Node>>)
      reads canvas
    {
      && IsBatch(b.view, b.lines, b.list) && AllNew(b.view, window.batchId)
      && NodeEdges(b.view) == Inside(LineGraph.TableEdges(canvas.lines), b.view.Keys)
      && (forall n :: n in b.view ==> b.view[n].instances != [])
      && stored.Some? && b.root == RootId(nodeId, stored.value)
      && b.view.Keys == BatchNodes(nodeId, stored.value)
      && Dated(b.view, BatchData(nodeId, stored.value), cron, window)
    }

    /** The nodes of a batch: those stored that are the root or an end of a stored line. */
    lemma NodesTaken(b: Batch, nodeId: Id, window: Window, cron: Cron, stored: seq<Node>, k: Id)
      requires Written(b, nodeId, window, cron, Some(stored))
      ensures k in b.view <==>
              && (exists n :: n in stored && n.id == k)
              && (k == nodeId || exists l :: l in canvas.lines.Values && (l.ahead == k || l.behind == k))
    {
      hide IsBatch, AllNew, NodeEdges, Dated;
      if l :| l in canvas.lines.Values && (l.ahead == k || l.behind == k) {
        assert (l.ahead, l.behind) in LineGraph.TableEdges(canvas.lines);
        EdgeEnds(LineGraph.TableEdges(canvas.lines), l.ahead, l.behind);
      }
      if e :| e in LineGraph.TableEdges(canvas.lines) && (e.0 == k || e.1 == k) {
        var id :| id in canvas.lines && (canvas.lines[id].ahead, canvas.lines[id].behind) == e;
        assert canvas.lines[id] in canvas.lines.Values;
      }
    }

    /** Deleted rows take part: a deleted line still links its ends, and a deleted node is
        still scheduled. */
    lemma DeletedTakePart(b: Batch, nodeId: Id, window: Window, cron: Cron, stored: seq<Node>)
      requires Written(b, nodeId, window, cron, Some(stored))
      ensures forall k :: k in canvas.lines ==>
                var l := canvas.lines[k];
                (l.ahead, l.behind) in NodeEdges(b.view) <==> {l.ahead, l.behind} <= NodeIds(stored)
      ensures forall n :: n in stored && (n.id == nodeId || n.id in Ends(LineGraph.TableEdges(canvas.lines))) ==>
                n.id in b.view && b.view[n.id].instances != []
    {
      hide IsBatch, AllNew, NodeEdges, Dated;
      forall k | k in canvas.lines
        ensures var l := canvas.lines[k];
                (l.ahead, l.behind) in NodeEdges(b.view) <==> {l.ahead, l.behind} <= NodeIds(stored)
      {
        var l := canvas.lines[k];
        assert (l.ahead, l.behind) in LineGraph.TableEdges(canvas.lines);
        EdgeEnds(LineGraph.TableEdges(canvas.lines), l.ahead, l.behind);
        assert (l.ahead, l.behind).0 == l.ahead && (l.ahead, l.behind).1 == l.behind;
      }
    }

    /** Undoing every deletion of a node would not change what is written. */
    lemma DeletionIgnored(b: Batch, nodeId: Id, window: Window, cron: Cron, stored: seq<Node>)
      ensures Written(b, nodeId, window, cron, Some(stored)) <==>
              Written(b, nodeId, window, cron, Some(Undeleted(stored)))
    {
      hide IsBatch, AllNew, NodeEdges, NodeIds, LastWithId, Inside, DueTimes, Undeleted, Ends, LineGraph.TableEdges;
      forall k
        ensures UndeletedAt(stored, k)
      {
        UndeletedKeeps(stored, k);
      }
      SameIds(stored);
      assert BatchNodes(nodeId, stored) == BatchNodes(nodeId, Undeleted(stored));
      forall k | k in BatchNodes(nodeId, stored)
        ensures DueTimes(BatchData(nodeId, stored)[k], cron, window) ==
                DueTimes(BatchData(nodeId, Undeleted(stored))[k], cron, window)
      {
        assert UndeletedAt(stored, k);
        SameTimes(LastWithId(stored, k).value, cron, window);
      }
    }

    /** The root is due once in the window, and every other node of the batch has an upstream
        node in the batch. */
    ghost predicate OneSource(nodeId: Id, window: Window, cron: Cron, stored: seq<Node>)
      reads canvas
    {
      var nodes, root := BatchNodes(nodeId, stored), RootId(nodeId, stored);
      && root in nodes && |DueTimes(BatchData(nodeId, stored)[root], cron, window)| == 1
      && forall n :: n in nodes && n != root ==> HasPredecessor(LineGraph.TableEdges(canvas.lines), nodes, n)
    }
  }
}
