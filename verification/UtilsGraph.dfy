/** The in-memory graph of utils/graph.go: cycle-refusing edges, breadth-first search
    that marks on enqueue, and Kahn's algorithm. */
module UtilsGraph {
  import opened Common
  import opened Digraph
  import opened Adjacency

  datatype GraphError = UnknownNode(id: Id) | WouldCycle(ahead: Id, behind: Id)

  datatype GraphOp = AddNodeOp(id: Id) | AddEdgeOp(ahead: Id, behind: Id)

  ghost predicate JoinsKnown(adj: Adj) {
    forall a, b :: a in adj && b in adj[a] ==> b in adj
  }

  ghost predicate Refused(adj: Adj, ahead: Id, behind: Id) {
    ahead !in adj || behind !in adj || Reaches(EdgesOf(adj), behind, ahead)
  }

  ghost function Apply(adj: Adj, op: GraphOp): Adj {
    match op
    case AddNodeOp(id) => if id in adj then adj else adj[id := []]
    case AddEdgeOp(a, b) => if Refused(adj, a, b) then adj else adj[a := adj[a] + [b]]
  }

  ghost function ApplyAll(adj: Adj, ops: seq<GraphOp>): Adj
    decreases |ops|
  {
    if ops == [] then adj else ApplyAll(Apply(adj, ops[0]), ops[1..])
  }

  lemma ApplyKeepsAcyclic(adj: Adj, op: GraphOp)
    requires JoinsKnown(adj) && Acyclic(EdgesOf(adj))
    ensures JoinsKnown(Apply(adj, op)) && Acyclic(EdgesOf(Apply(adj, op)))
  {
    match op
    case AddNodeOp(id) =>
      if id !in adj {
        EmptyListAddsNoEdge(adj, id);
      }
    case AddEdgeOp(a, b) =>
      if !Refused(adj, a, b) {
        AppendAddsEdge(adj, a, b);
        AddEdgeKeepsAcyclic(EdgesOf(adj), a, b);
      }
  }

  /** However nodes and edges are added, the graph stays acyclic. */
  lemma {:induction false} EverySequenceStaysAcyclic(adj: Adj, ops: seq<GraphOp>)
    requires JoinsKnown(adj) && Acyclic(EdgesOf(adj))
    ensures JoinsKnown(ApplyAll(adj, ops)) && Acyclic(EdgesOf(ApplyAll(adj, ops)))
    decreases |ops|
  {
    if ops != [] {
      ApplyKeepsAcyclic(adj, ops[0]);
      EverySequenceStaysAcyclic(Apply(adj, ops[0]), ops[1..]);
    }
  }

  /** An edge between known nodes is refused exactly when it would close a cycle. */
  lemma RefusedExactlyForCycles(adj: Adj, ahead: Id, behind: Id)
    requires Acyclic(EdgesOf(adj)) && ahead in adj && behind in adj
    ensures Refused(adj, ahead, behind) <==> !Acyclic(EdgesOf(adj) + {(ahead, behind)})
  {
    AddEdgeKeepsAcyclic(EdgesOf(adj), ahead, behind);
  }

  /** Nodes that some cycle reaches. */
  ghost predicate BelowCycle(E: set<Edge>, n: Id) {
    exists c :: OnCycle(E, c) && Reaches(E, c, n)
  }

  /** What Kahn's algorithm leaves: `order` lists predecessors first, and every other
      node still has a predecessor among the others. */
  ghost predicate KahnResult(adj: Adj, order: seq<Id>) {
    && Distinct(order)
    && Elements(order) <= adj.Keys
    && PredecessorsFirst(EdgesOf(adj), order)
    && AllHavePredecessor(EdgesOf(adj), adj.Keys - Elements(order))
  }

  lemma KahnSeparates(adj: Adj, order: seq<Id>, n: Id)
    requires KahnResult(adj, order) && n in adj
    ensures n in order <==> !BelowCycle(EdgesOf(adj), n)
  {
    var E := EdgesOf(adj);
    if n in order {
      forall c | OnCycle(E, c)
        ensures !Reaches(E, c, n)
      {
        ListedNotBelowCycle(E, order, c, n);
      }
    } else {
      NoSourceImpliesCycle(E, adj.Keys - Elements(order), n);
    }
  }

  lemma KahnDecides(adj: Adj, order: seq<Id>)
    requires JoinsKnown(adj) && KahnResult(adj, order)
    ensures |order| == |adj| <==> Acyclic(EdgesOf(adj))
  {
    var E := EdgesOf(adj);
    DistinctSize(order);
    if |order| == |adj| {
      SubsetOfSameSize(Elements(order), adj.Keys);
      forall c
        ensures !OnCycle(E, c)
      {
        ReachesSelf(E, c);
        if c in adj {
          KahnSeparates(adj, order, c);
        }
      }
    } else {
      assert Elements(order) != adj.Keys;
      var n :| n in adj && n !in order;
      KahnSeparates(adj, order, n);
    }
  }

  // ---- breadth-first search ----

  /** The state of the search: everything visited is reachable, and only the queued
      nodes may have unvisited successors. */
  ghost predicate Searching(adj: Adj, start: Id, target: Id, visited: set<Id>, queued: set<Id>) {
    && start in visited && target !in visited && visited <= adj.Keys && queued <= visited
    && (forall v :: v in visited ==> Reaches(EdgesOf(adj), start, v))
    && (forall v :: v in visited - queued ==> Elements(Successors(adj, v)) <= visited)
  }

  lemma SearchStart(adj: Adj, start: Id, target: Id)
    requires start in adj && start != target
    ensures Searching(adj, start, target, {start}, {start})
  {
    ReachesSelf(EdgesOf(adj), start);
  }

  lemma SuccessorReached(adj: Adj, start: Id, v: Id, w: Id)
    requires Reaches(EdgesOf(adj), start, v) && w in Successors(adj, v)
    ensures Reaches(EdgesOf(adj), start, w)
  {
    EdgeIsSuccessor(adj, v, w);
    ReachesEdge(EdgesOf(adj), v, w);
    ReachesTrans(EdgesOf(adj), start, v, w);
  }

  lemma SearchStep(adj: Adj, start: Id, target: Id, visited: set<Id>, queued: set<Id>, v: Id)
    requires JoinsKnown(adj) && Searching(adj, start, target, visited, {v} + queued)
    ensures var found := Elements(Successors(adj, v));
            target !in found ==> Searching(adj, start, target, visited + found, queued + (found - visited))
    ensures Reaches(EdgesOf(adj), start, v)
  {
    var found := Elements(Successors(adj, v));
    forall w | w in found
      ensures Reaches(EdgesOf(adj), start, w)
    {
      SuccessorReached(adj, start, v, w);
    }
  }

  lemma SearchShrinks(adj: Adj, start: Id, target: Id, before: set<Id>, visited: set<Id>, queued: set<Id>)
    requires Searching(adj, start, target, visited, queued) && before <= visited
    ensures visited == before || |adj.Keys - visited| < |adj.Keys - before|
  {
    if visited != before {
      SmallerSet(adj.Keys - visited, adj.Keys - before);
    }
  }

  lemma SearchExhausted(adj: Adj, start: Id, target: Id, visited: set<Id>)
    requires Searching(adj, start, target, visited, {})
    ensures !Reaches(EdgesOf(adj), start, target)
  {
    var E := EdgesOf(adj);
    forall e | e in E && e.0 in visited
      ensures e.1 in visited
    {
      EdgeIsSuccessor(adj, e.0, e.1);
      assert e.0 in visited - {};
    }
    if Reaches(E, start, target) {
      ClosedKeeps(E, visited, start, target);
    }
  }

  lemma UnknownReachesNothing(adj: Adj, start: Id, target: Id)
    requires start !in adj && start != target
    ensures !Reaches(EdgesOf(adj), start, target)
  {
    var E := EdgesOf(adj);
    if Reaches(E, start, target) {
      ClosedKeeps(E, {start}, start, target);
    }
  }

  // ---- Kahn's algorithm ----

  ghost predicate ZeroDegreeQueued(adj: Adj, order: seq<Id>, degree: map<Id, int>, queue: seq<Id>) {
    && degree.Keys == adj.Keys && Distinct(queue)
    && (forall v :: v in queue <==> v in adj && v !in order && degree[v] == 0)
    && (forall v :: v in order ==> v in adj && degree[v] == 0)
  }

  ghost predicate Sorting(adj: Adj, order: seq<Id>, degree: map<Id, int>, queue: seq<Id>) {
    && Distinct(order)
    && PredecessorsFirst(EdgesOf(adj), order)
    && Counts(adj, adj.Keys - Elements(order), [], degree)
    && ZeroDegreeQueued(adj, order, degree, queue)
  }

  lemma SortingStart(adj: Adj, degree: map<Id, int>, queue: seq<Id>)
    requires Counts(adj, adj.Keys, [], degree) && Distinct(queue)
    requires forall v :: v in queue <==> v in adj && degree[v] == 0
    ensures Sorting(adj, [], degree, queue)
  {
    assert adj.Keys - Elements([]) == adj.Keys;
  }

  /** Taking a zero-degree node off the queue: its predecessors are all listed, and none
      of its successors is. */
  lemma TakeNext(adj: Adj, order: seq<Id>, degree: map<Id, int>, queue: seq<Id>)
    requires Sorting(adj, order, degree, queue) && queue != []
    ensures var current, open := queue[0], adj.Keys - Elements(order + [queue[0]]);
            && Distinct(order + [current])
            && PredecessorsFirst(EdgesOf(adj), order + [current])
            && Counts(adj, open, Successors(adj, current), degree)
            && ZeroDegreeQueued(adj, order + [current], degree, queue[1..])
            && current in adj
            && open < adj.Keys - Elements(order)
  {
    var current := queue[0];
    var before, open := adj.Keys - Elements(order), adj.Keys - Elements(order + [current]);
    ElementsAppend(order, current);
    ElementsTail(queue);
    assert before == open + {current};
    CountsMove(adj, open, current, degree);
    ListedFirst(adj, order, degree, current);
  }

  lemma ListedFirst(adj: Adj, order: seq<Id>, degree: map<Id, int>, current: Id)
    requires PredecessorsFirst(EdgesOf(adj), order) && current in adj && current !in order
    requires Counts(adj, adj.Keys - Elements(order), [], degree) && degree[current] == 0
    ensures PredecessorsFirst(EdgesOf(adj), order + [current])
  {
    InCountZero(adj, adj.Keys - Elements(order), current);
    forall u | (u, current) in EdgesOf(adj)
      ensures u in order
    {
      EdgeIsSuccessor(adj, u, current);
      assert u in adj.Keys - Elements(order) ==> current !in Successors(adj, u);
      assert u in adj;
    }
    hide Counts, Elements, EdgesOf;
    FirstOneMore(EdgesOf(adj), order, current);
  }

  lemma FirstOneMore(E: set<Edge>, order: seq<Id>, current: Id)
    requires PredecessorsFirst(E, order) && current !in order
    requires forall u :: (u, current) in E ==> u in order
    ensures PredecessorsFirst(E, order + [current])
  {
    var longer := order + [current];
    forall e, i | e in E && 0 <= i < |longer| && longer[i] == e.1
      ensures e.0 in longer[..i]
    {
      assert longer[..i] == order[..i];
      assert (e.0, e.1) in E;
    }
  }

  /** Lowering the degree of one open successor. */
  lemma LowerOne(adj: Adj, order: seq<Id>, degree: map<Id, int>, queue: seq<Id>, s: seq<Id>, i: nat)
    requires JoinsKnown(adj) && i < |s| && s[i] in adj
    requires Counts(adj, adj.Keys - Elements(order), s[i..], degree)
    requires ZeroDegreeQueued(adj, order, degree, queue)
    ensures degree[s[i]] > 0
    ensures var lowered := degree[s[i] := degree[s[i]] - 1];
            && Counts(adj, adj.Keys - Elements(order), s[i + 1..], lowered)
            && ZeroDegreeQueued(adj, order, lowered, if lowered[s[i]] == 0 then queue + [s[i]] else queue)
  {
    CountsLower(adj, adj.Keys - Elements(order), s, i, degree);
    ElementsAppend(queue, s[i]);
    assert forall v :: v in queue + [s[i]] <==> v in queue || v == s[i];
  }

  lemma SortingDone(adj: Adj, order: seq<Id>, degree: map<Id, int>)
    requires Sorting(adj, order, degree, [])
    ensures KahnResult(adj, order)
    ensures forall v :: v in adj ==> degree[v] >= 0 && (degree[v] == 0 <==> v in order)
  {
    var open := adj.Keys - Elements(order);
    forall v | v in open
      ensures HasPredecessor(EdgesOf(adj), open, v)
    {
      assert v !in [];
      InCountZero(adj, open, v);
      var u :| u in open && v in Successors(adj, u);
      EdgeIsSuccessor(adj, u, v);
    }
  }

  class Graph {
    var nodes: set<Id>
    var edges: Adj

    ghost predicate Valid()
      reads this
    {
      edges.Keys == nodes && JoinsKnown(edges)
    }

    constructor ()
      ensures Valid() && edges == map[]
    {
      nodes, edges := {}, map[];
    }

    method AddNode(id: Id)
      requires Valid()
      modifies this
      ensures Valid() && edges == Apply(old(edges), AddNodeOp(id))
    {
      if id !in nodes {
        nodes := nodes + {id};
        edges := edges[id := []];
      }
    }

    method AddEdge(ahead: Id, behind: Id) returns (err: Option<GraphError>)
      requires Valid()
      modifies this
      ensures Valid() && edges == Apply(old(edges), AddEdgeOp(ahead, behind))
      ensures err == if ahead !in old(nodes) then Some(UnknownNode(ahead))
                     else if behind !in old(nodes) then Some(UnknownNode(behind))
                     else if Reaches(EdgesOf(old(edges)), behind, ahead) then Some(WouldCycle(ahead, behind))
                     else None
      ensures old(Acyclic(EdgesOf(edges))) ==> Acyclic(EdgesOf(edges))
    {
      hide Reaches, EdgesOf, Acyclic;
      if Acyclic(EdgesOf(edges)) {
        ApplyKeepsAcyclic(edges, AddEdgeOp(ahead, behind));
      }
      if ahead !in nodes {
        return Some(UnknownNode(ahead));
      }
      if behind !in nodes {
        return Some(UnknownNode(behind));
      }
      var cycle := WouldCreateCycle(ahead, behind);
      if cycle {
        return Some(WouldCycle(ahead, behind));
      }
      edges := edges[ahead := edges[ahead] + [behind]];
      return None;
    }

    method WouldCreateCycle(ahead: Id, behind: Id) returns (r: bool)
      requires Valid()
      ensures r <==> Reaches(EdgesOf(edges), behind, ahead)
    {
      if ahead == behind {
        ReachesSelf(EdgesOf(edges), ahead);
        return true;
      }
      r := HasPath(behind, ahead);
    }

    method HasPath(start: Id, target: Id) returns (r: bool)
      requires Valid()
      ensures r <==> Reaches(EdgesOf(edges), start, target)
    {
      hide Reaches, EdgesOf;
      if start == target {
        ReachesSelf(EdgesOf(edges), start);
        return true;
      }
      if start !in nodes {
        UnknownReachesNothing(edges, start, target);
        return false;
      }
      var queue := [start];
      var visited := {start};
      SearchStart(edges, start, target);
      assert Elements(queue) == {start};
      while queue != []
        invariant Searching(edges, start, target, visited, Elements(queue))
        decreases |nodes - visited|, |queue|
      {
        var current := queue[0];
        ghost var before := visited;
        ElementsTail(queue);
        SearchStep(edges, start, target, visited, Elements(queue[1..]), current);
        var found;
        found, visited, queue := Enqueue(Successors(edges, current), target, visited, queue[1..]);
        if found {
          SuccessorReached(edges, start, current, target);
          return true;
        }
        SearchShrinks(edges, start, target, before, visited, Elements(queue));
      }
      assert Elements([]) == {};
      SearchExhausted(edges, start, target, visited);
      return false;
    }

    /** The successor loop of the search: mark on enqueue, stop at the target. */
    static method Enqueue(next: seq<Id>, target: Id, visited0: set<Id>, queue0: seq<Id>)
      returns (found: bool, visited: set<Id>, queue: seq<Id>)
      ensures found <==> target in next
      ensures !found ==> visited == visited0 + Elements(next)
      ensures !found ==> Elements(queue) == Elements(queue0) + (Elements(next) - visited0)
      ensures !found && visited == visited0 ==> queue == queue0
    {
      visited, queue := visited0, queue0;
      for i := 0 to |next|
        invariant visited == visited0 + Elements(next[..i])
        invariant Elements(queue) == Elements(queue0) + (Elements(next[..i]) - visited0)
        invariant visited == visited0 ==> queue == queue0
        invariant target !in next[..i]
      {
        ElementsTake(next, i);
        if next[i] == target {
          return true, visited, queue;
        }
        if next[i] !in visited {
          ElementsAppend(queue, next[i]);
          visited := visited + {next[i]};
          queue := queue + [next[i]];
        }
      }
      assert next[..|next|] == next;
      found := false;
    }

    /** The in-degree count, the queue and the sort that CheckDAG and GetCycle both run. */
    method Kahn() returns (order: seq<Id>, inDegree: map<Id, int>)
      requires Valid()
      ensures KahnResult(edges, order)
      ensures inDegree.Keys == nodes
      ensures forall v :: v in nodes ==> inDegree[v] >= 0 && (inDegree[v] == 0 <==> v in order)
    {
      inDegree := CountDegrees();
      var queue := Sources(inDegree);
      order := [];
      SortingStart(edges, inDegree, queue);
      while queue != []
        invariant Sorting(edges, order, inDegree, queue)
        decreases |nodes - Elements(order)|
      {
        hide PredecessorsFirst, EdgesOf, Counts, ZeroDegreeQueued, KahnResult;
        var current := queue[0];
        ghost var open := nodes - Elements(order);
        TakeNext(edges, order, inDegree, queue);
        queue := queue[1..];
        order := order + [current];
        SmallerSet(nodes - Elements(order), open);
        inDegree, queue := Release(current, order, inDegree, queue);
      }
      SortingDone(edges, order, inDegree);
    }

    method CountDegrees() returns (inDegree: map<Id, int>)
      requires Valid()
      ensures inDegree.Keys == nodes && Counts(edges, nodes, [], inDegree)
    {
      hide Counts;
      inDegree := map node | node in nodes :: 0;
      var pending := nodes;
      ghost var counted: set<Id> := {};
      CountsStart(edges);
      while pending != {}
        invariant pending <= nodes && counted == nodes - pending && inDegree.Keys == nodes
        invariant Counts(edges, counted, [], inDegree)
      {
        var node :| node in pending;
        inDegree := CountSuccessors(node, counted, inDegree);
        counted := counted + {node};
        pending := pending - {node};
      }
      assert counted == nodes;
    }

    method CountSuccessors(node: Id, ghost counted: set<Id>, degree: map<Id, int>) returns (inDegree: map<Id, int>)
      requires Valid() && node in nodes && node !in counted && degree.Keys == nodes
      requires Counts(edges, counted, [], degree)
      ensures inDegree.Keys == nodes && Counts(edges, counted + {node}, [], inDegree)
    {
      hide Counts;
      inDegree := degree;
      var successors := edges[node];
      assert successors[..0] == [];
      for i := 0 to |successors|
        invariant inDegree.Keys == nodes && Counts(edges, counted, successors[..i], inDegree)
      {
        CountsRaise(edges, counted, successors, i, inDegree);
        inDegree := inDegree[successors[i] := inDegree[successors[i]] + 1];
      }
      assert successors[..|successors|] == Successors(edges, node);
      CountsMove(edges, counted, node, inDegree);
    }

    method Sources(inDegree: map<Id, int>) returns (queue: seq<Id>)
      requires inDegree.Keys == nodes
      ensures Distinct(queue)
      ensures forall v :: v in queue <==> v in nodes && inDegree[v] == 0
    {
      queue := [];
      var pending := nodes;
      while pending != {}
        invariant pending <= nodes && Distinct(queue)
        invariant forall v :: v in queue <==> v in nodes - pending && inDegree[v] == 0
      {
        var node :| node in pending;
        pending := pending - {node};
        if inDegree[node] == 0 {
          queue := queue + [node];
        }
      }
    }

    /** Decrement the successors of `current`, enqueueing those that reach zero. */
    method Release(current: Id, ghost order: seq<Id>, degree: map<Id, int>, waiting: seq<Id>)
      returns (inDegree: map<Id, int>, queue: seq<Id>)
      requires Valid() && current in nodes && degree.Keys == nodes
      requires Counts(edges, nodes - Elements(order), Successors(edges, current), degree)
      requires ZeroDegreeQueued(edges, order, degree, waiting)
      ensures inDegree.Keys == nodes
      ensures Counts(edges, nodes - Elements(order), [], inDegree)
      ensures ZeroDegreeQueued(edges, order, inDegree, queue)
    {
      hide Counts, ZeroDegreeQueued;
      inDegree, queue := degree, waiting;
      var successors := edges[current];
      assert successors[0..] == successors;
      for i := 0 to |successors|
        invariant inDegree.Keys == nodes
        invariant Counts(edges, nodes - Elements(order), successors[i..], inDegree)
        invariant ZeroDegreeQueued(edges, order, inDegree, queue)
      {
        LowerOne(edges, order, inDegree, queue, successors, i);
        inDegree := inDegree[successors[i] := inDegree[successors[i]] - 1];
        if inDegree[successors[i]] == 0 {
          queue := queue + [successors[i]];
        }
      }
      assert successors[|successors|..] == [];
    }

    method CheckDAG() returns (r: bool)
      requires Valid()
      ensures r <==> Acyclic(EdgesOf(edges))
    {
      var order, inDegree := Kahn();
      KahnDecides(edges, order);
      r := |order| == |nodes|;
    }

    /** Not one cycle, as the source's comment says, but every node some cycle reaches. */
    method GetCycle() returns (cycleNodes: seq<Id>)
      requires Valid()
      ensures cycleNodes == [] <==> Acyclic(EdgesOf(edges))
      ensures Distinct(cycleNodes)
      ensures forall n :: n in cycleNodes <==> n in nodes && BelowCycle(EdgesOf(edges), n)
    {
      hide BelowCycle, Acyclic, EdgesOf, PredecessorsFirst;
      var order, inDegree := Kahn();
      cycleNodes := [];
      KahnDecides(edges, order);
      DistinctSize(order);
      forall n | n in nodes
        ensures n in order <==> !BelowCycle(EdgesOf(edges), n)
      {
        KahnSeparates(edges, order, n);
      }
      if |order| != |nodes| {
        var pending := nodes;
        while pending != {}
          invariant pending <= nodes && Distinct(cycleNodes)
          invariant forall n :: n in cycleNodes <==> n in nodes - pending && inDegree[n] > 0
        {
          var node :| node in pending;
          pending := pending - {node};
          if inDegree[node] > 0 {
            cycleNodes := cycleNodes + [node];
          }
        }
        assert Elements(order) != nodes;
        var n :| n in nodes && n !in order;
        assert n in cycleNodes;
      } else {
        SubsetOfSameSize(Elements(order), nodes);
      }
    }
  }
}
