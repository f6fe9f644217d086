/** service/dispatchserver/dag.go: InstanceDAGBuilder.Build, from stored lines and nodes to
    linked node objects. */
module GraphBuild {
  import opened Common
  import opened Digraph
  import opened InstanceLinks
  import opened InstanceDag
  import opened DagBuilder
  import LineGraph

  /** The upstream ends of the lines into b, and the downstream ends of those out of a. */
  ghost function Aheads(lines: seq<Line>, b: Id): set<Id> {
    set l | l in lines && l.behind == b :: l.ahead
  }

  ghost function Behinds(lines: seq<Line>, a: Id): set<Id> {
    set l | l in lines && l.ahead == a :: l.behind
  }

  ghost function Endpoints(lines: seq<Line>): set<Id> {
    (set l | l in lines :: l.ahead) + (set l | l in lines :: l.behind)
  }

  ghost function NodeIds(stored: seq<Node>): set<Id> {
    set n | n in stored :: n.id
  }

  lemma EndpointsTake(lines: seq<Line>, i: nat)
    requires i < |lines|
    ensures Endpoints(lines[..i + 1]) == Endpoints(lines[..i]) + {lines[i].ahead, lines[i].behind}
  {
    assert lines[..i + 1] == lines[..i] + [lines[i]];
    assert forall l :: l in lines[..i + 1] <==> l in lines[..i] || l == lines[i];
  }

  lemma EndsTake(lines: seq<Line>, i: nat, k: Id)
    requires i < |lines|
    ensures Aheads(lines[..i + 1], k) == Aheads(lines[..i], k) + if lines[i].behind == k then {lines[i].ahead} else {}
    ensures Behinds(lines[..i + 1], k) == Behinds(lines[..i], k) + if lines[i].ahead == k then {lines[i].behind} else {}
  {
    assert lines[..i + 1] == lines[..i] + [lines[i]];
    assert forall l :: l in lines[..i + 1] <==> l in lines[..i] || l == lines[i];
  }

  lemma Distribute(a: set<Id>, b: set<Id>, keys: set<Id>)
    ensures (a + b) * keys == a * keys + b * keys
  {
  }

  lemma NodeIdsTake(stored: seq<Node>, i: nat)
    requires i < |stored|
    ensures NodeIds(stored[..i + 1]) == NodeIds(stored[..i]) + {stored[i].id}
  {
    assert stored[..i + 1] == stored[..i] + [stored[i]];
    assert forall n :: n in stored[..i + 1] <==> n in stored[..i] || n == stored[i];
  }

  /** The last stored node with this id. */
  ghost function LastWithId(stored: seq<Node>, id: Id): (r: Option<Node>)
    ensures r.Some? <==> id in NodeIds(stored)
    ensures r.Some? ==> r.value in stored && r.value.id == id
    decreases |stored|
  {
    if stored == [] then None
    else if stored[|stored| - 1].id == id then Some(stored[|stored| - 1])
    else
      assert NodeIds(stored) == NodeIds(stored[..|stored| - 1]) + {stored[|stored| - 1].id} by {
        assert stored[..|stored|] == stored;
        NodeIdsTake(stored, |stored| - 1);
      }
      LastWithId(stored[..|stored| - 1], id)
  }

  /** No later stored node has the same id. */
  lemma {:induction false} LastIsLast(stored: seq<Node>, i: nat)
    requires i < |stored| && forall j :: i < j < |stored| ==> stored[j].id != stored[i].id
    ensures LastWithId(stored, stored[i].id) == Some(stored[i])
    decreases |stored|
  {
    if i < |stored| - 1 {
      LastIsLast(stored[..|stored| - 1], i);
    }
  }

  class InstanceDAGBuilder {
    const id: Id
    const dag: NodeDAG

    constructor (id: Id, batchId: Id)
      ensures this.id == id && dag.nodes == map[] && dag.batchId == batchId && fresh(dag)
    {
      this.id := id;
      dag := new NodeDAG(batchId);
    }

    ghost predicate Named()
      reads dag, dag.nodes.Values
    {
      forall k :: k in dag.nodes ==> dag.nodes[k].data.id == k
    }

    method BuildDAGNode(node: Node) returns (n: DAGNode)
      requires Named()
      modifies dag
      ensures Named() && n.data.id == node.id
      ensures dag.nodes == old(dag.nodes)[node.id := n]
      ensures node.id in old(dag.nodes) ==> n == old(dag.nodes)[node.id]
      ensures node.id !in old(dag.nodes) ==> fresh(n)
    {
      if node.id in dag.nodes {
        n := dag.nodes[node.id];
        assert dag.nodes == dag.nodes[node.id := n];
      } else {
        n := new DAGNode(node);
        dag.nodes := dag.nodes[node.id := n];
      }
    }

    /** Makes a node object for the root, if there is none yet, and for both ends of every
        line. The links set here all belong to objects that are replaced later. */
    method Collect(lines: seq<Line>)
      requires Named()
      modifies dag, dag.nodes.Values
      ensures Named()
      ensures dag.nodes.Keys == old(dag.nodes.Keys) + (if old(dag.nodes) == map[] then {id} else {}) + Endpoints(lines)
    {
      hide Endpoints, Named;
      ghost var known := dag.nodes.Values;
      ghost var base := dag.nodes.Keys + (if dag.nodes == map[] then {id} else {});
      if |dag.nodes| == 0 {
        var n := BuildDAGNode(Node(id, "", "", Normal, false));
        known := known + {n};
      }
      NoEndpoints();
      assert lines[..0] == [];
      for i := 0 to |lines|
        invariant Named()
        invariant dag.nodes.Keys == base + Endpoints(lines[..i])
        invariant dag.nodes.Values <= known && fresh(known - old(dag.nodes.Values))
      {
        EndpointsTake(lines, i);
        known := CollectLine(lines[i], known);
      }
      assert lines[..|lines|] == lines;
    }

    method CollectLine(line: Line, ghost known: set<DAGNode>) returns (ghost more: set<DAGNode>)
      requires Named() && dag.nodes.Values <= known
      modifies dag, known
      ensures Named()
      ensures dag.nodes.Keys == old(dag.nodes.Keys) + {line.ahead, line.behind}
      ensures dag.nodes.Values <= more && known <= more && fresh(more - known)
    {
      var behindNode := BuildDAGNode(Node(line.behind, "", "", Normal, false));
      assert behindNode in known || fresh(behindNode);
      var aheadNode := BuildDAGNode(Node(line.ahead, "", "", Normal, false));
      assert aheadNode in known + {behindNode} || fresh(aheadNode);
      more := known + {behindNode, aheadNode};
      LinkDAGNodes(aheadNode, behindNode);
    }

    ghost predicate Clean(k: Id, made: set<DAGNode>, d: Option<Node>)
      reads dag, dag.nodes.Values
    {
      && k in dag.nodes && dag.nodes[k] in made && Some(dag.nodes[k].data) == d
      && dag.nodes[k].instances == [] && dag.nodes[k].ins == map[] && dag.nodes[k].outs == map[]
    }

    /** Replaces every kept node object by a fresh one that carries the stored node. */
    method Replace(stored: seq<Node>) returns (root: Option<Node>, ghost made: set<DAGNode>)
      requires Named()
      modifies dag
      ensures dag.nodes.Keys == old(dag.nodes.Keys) && Named() && fresh(made)
      ensures root == LastWithId(stored, id)
      ensures forall k :: k in dag.nodes && k in NodeIds(stored) ==> Clean(k, made, LastWithId(stored, k))
    {
      hide NodeIds, LastWithId;
      root, made := None, {};
      NoStored();
      assert stored[..0] == [];
      for i := 0 to |stored|
        invariant dag.nodes.Keys == old(dag.nodes.Keys) && Named() && fresh(made)
        invariant root == LastWithId(stored[..i], id)
        invariant forall k :: k in dag.nodes && k in NodeIds(stored[..i]) ==> Clean(k, made, LastWithId(stored[..i], k))
      {
        NodeIdsTake(stored, i);
        LastTake(stored, i);
        if stored[i].id == id {
          root := Some(stored[i]);
        }
        var n := ReplaceDAGNode(stored[i]);
        made := made + {n};
      }
      assert stored[..|stored|] == stored;
    }

    method ReplaceDAGNode(node: Node) returns (n: DAGNode)
      requires Named()
      modifies dag
      ensures Named() && fresh(n) && n.data == node && n.instances == [] && n.ins == map[] && n.outs == map[]
      ensures dag.nodes == if node.id in old(dag.nodes) then old(dag.nodes)[node.id := n] else old(dag.nodes)
    {
      n := new DAGNode(node);
      if node.id in dag.nodes {
        dag.nodes := dag.nodes[node.id := n];
      }
    }

    /** `ins` and `outs` show exactly the given lines between kept nodes. */
    ghost predicate Shows(lines: seq<Line>)
      reads dag, dag.nodes.Values
    {
      forall k :: k in dag.nodes ==>
                    && dag.nodes[k].ins.Keys == Aheads(lines, k) * dag.nodes.Keys
                    && dag.nodes[k].outs.Keys == Behinds(lines, k) * dag.nodes.Keys
    }

    method Relink(lines: seq<Line>)
      requires dag.Valid() && Shows([])
      modifies dag.nodes.Values
      ensures dag.Valid() && Shows(lines)
      ensures forall k :: k in dag.nodes ==> dag.nodes[k].instances == old(dag.nodes[k].instances)
    {
      hide Aheads, Behinds;
      assert lines[..0] == [];
      for i := 0 to |lines|
        invariant dag.Valid() && Shows(lines[..i])
        invariant forall k :: k in dag.nodes ==> dag.nodes[k].instances == old(dag.nodes[k].instances)
      {
        LinkLine(lines, i);
      }
      assert lines[..|lines|] == lines;
    }

    method LinkLine(lines: seq<Line>, i: nat)
      requires i < |lines| && dag.Valid() && Shows(lines[..i])
      modifies dag.nodes.Values
      ensures dag.Valid() && Shows(lines[..i + 1])
      ensures forall k :: k in dag.nodes ==> dag.nodes[k].instances == old(dag.nodes[k].instances)
    {
      hide Aheads, Behinds, NodeDAG.Valid;
      var line := lines[i];
      ghost var keys := dag.nodes.Keys;
      LinkKept(line);
      forall k | k in dag.nodes
        ensures dag.nodes[k].ins.Keys == Aheads(lines[..i + 1], k) * dag.nodes.Keys
        ensures dag.nodes[k].outs.Keys == Behinds(lines[..i + 1], k) * dag.nodes.Keys
      {
        EndsTake(lines, i, k);
        Distribute(Aheads(lines[..i], k), if line.behind == k then {line.ahead} else {}, keys);
        Distribute(Behinds(lines[..i], k), if line.ahead == k then {line.behind} else {}, keys);
      }
    }

    twostate lemma InsLinked(line: Line)
      requires line.ahead in dag.nodes && line.behind in dag.nodes && dag.nodes == old(dag.nodes)
      requires old(dag.Valid())
      requires dag.nodes[line.behind].ins == old(dag.nodes[line.behind].ins)[line.ahead := dag.nodes[line.ahead]]
      requires forall k :: k in dag.nodes && k != line.behind ==> dag.nodes[k].ins == old(dag.nodes[k].ins)
      ensures dag.InsHeld()
      ensures forall k :: k in dag.nodes ==>
                dag.nodes[k].ins.Keys == old(dag.nodes[k].ins.Keys)
                                         + (if line.behind == k then {line.ahead} else {}) * dag.nodes.Keys
    {
    }

    twostate lemma OutsLinked(line: Line)
      requires line.ahead in dag.nodes && line.behind in dag.nodes && dag.nodes == old(dag.nodes)
      requires old(dag.Valid())
      requires dag.nodes[line.ahead].outs == old(dag.nodes[line.ahead].outs)[line.behind := dag.nodes[line.behind]]
      requires forall k :: k in dag.nodes && k != line.ahead ==> dag.nodes[k].outs == old(dag.nodes[k].outs)
      ensures dag.OutsHeld()
      ensures forall k :: k in dag.nodes ==>
                dag.nodes[k].outs.Keys == old(dag.nodes[k].outs.Keys)
                                          + (if line.ahead == k then {line.behind} else {}) * dag.nodes.Keys
    {
    }

    /** Links the two ends of a line if both are kept. */
    method LinkKept(line: Line)
      requires dag.Valid()
      modifies dag.nodes.Values
      ensures dag.Valid()
      ensures forall k :: k in dag.nodes ==>
                && dag.nodes[k].instances == old(dag.nodes[k].instances)
                && dag.nodes[k].ins.Keys == old(dag.nodes[k].ins.Keys)
                                            + (if line.behind == k then {line.ahead} else {}) * dag.nodes.Keys
                && dag.nodes[k].outs.Keys == old(dag.nodes[k].outs.Keys)
                                             + (if line.ahead == k then {line.behind} else {}) * dag.nodes.Keys
    {
      if line.behind in dag.nodes && line.ahead in dag.nodes {
        hide NodeDAG.InsHeld, NodeDAG.OutsHeld;
        LinkDAGNodes(dag.nodes[line.ahead], dag.nodes[line.behind]);
        InsLinked(line);
        OutsLinked(line);
      }
    }

    /** The node set, the links and the objects that a batch is built from. */
    method Build(lines: seq<Line>, stored: Option<seq<Node>>) returns (root: Option<Node>, err: Option<DagError>)
      requires Named()
      modifies dag, dag.nodes.Values
      ensures err == if stored.None? then Some(StoreFailed) else None
      ensures stored.Some? ==> dag.Valid() && Shows(lines) && root == LastWithId(stored.value, id)
      ensures stored.Some? ==>
                dag.nodes.Keys == (old(dag.nodes.Keys) + (if old(dag.nodes) == map[] then {id} else {})
                                   + Endpoints(lines)) * NodeIds(stored.value)
      ensures stored.Some? ==>
                forall k :: k in dag.nodes ==> && fresh(dag.nodes[k]) && dag.nodes[k].instances == []
                                               && Some(dag.nodes[k].data) == LastWithId(stored.value, k)
    {
      hide Endpoints, NodeIds, LastWithId;
      Collect(lines);
      if stored.None? {
        return None, Some(StoreFailed);
      }
      Prune(stored.value);
      ghost var made;
      root, made := Replace(stored.value);
      NoLines();
      CleanShowsNothing(made, stored.value);
      Relink(lines);
      err := None;
    }

    method Prune(stored: seq<Node>)
      requires Named()
      modifies dag
      ensures Named() && dag.nodes.Keys == old(dag.nodes.Keys) * NodeIds(stored)
    {
      var ids := set n | n in stored :: n.id;
      dag.nodes := map k | k in dag.nodes && k in ids :: dag.nodes[k];
    }

    lemma CleanShowsNothing(made: set<DAGNode>, stored: seq<Node>)
      requires Named() && dag.nodes.Keys <= NodeIds(stored)
      requires forall k :: k in dag.nodes && k in NodeIds(stored) ==> Clean(k, made, LastWithId(stored, k))
      ensures dag.Valid() && Shows([])
      ensures forall k :: k in dag.nodes ==> && dag.nodes[k] in made && dag.nodes[k].instances == []
                                             && Some(dag.nodes[k].data) == LastWithId(stored, k)
    {
      hide NodeIds, LastWithId;
      forall k | k in dag.nodes
        ensures Clean(k, made, LastWithId(stored, k))
      {
      }
    }
  }

  lemma NoEndpoints()
    ensures Endpoints([]) == {}
  {
  }

  lemma NoLines()
    ensures forall k :: Aheads([], k) == {} && Behinds([], k) == {}
  {
  }

  lemma NoStored()
    ensures NodeIds([]) == {} && forall k :: LastWithId([], k) == None
  {
  }

  lemma LastTake(stored: seq<Node>, i: nat)
    requires i < |stored|
    ensures forall k ::
              LastWithId(stored[..i + 1], k) ==
              if stored[i].id == k then Some(stored[i]) else LastWithId(stored[..i], k)
  {
    var more := stored[..i + 1];
    assert more[..|more| - 1] == stored[..i] && more[|more| - 1] == stored[i];
    forall k
      ensures LastWithId(more, k) == if stored[i].id == k then Some(stored[i]) else LastWithId(stored[..i], k)
    {
    }
  }

  method LinkDAGNodes(upstream: DAGNode, downstream: DAGNode)
    modifies upstream`outs, downstream`ins
    ensures upstream.outs == old(upstream.outs)[downstream.data.id := downstream]
    ensures downstream.ins == old(downstream.ins)[upstream.data.id := upstream]
  {
    upstream.AddOut(downstream);
    downstream.AddIn(upstream);
  }
}
