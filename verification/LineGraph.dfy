/** The canvas lines: the adjacency graph of service/dispatchserver/graph.go and the
    cycle check that guards SaveLine in node_server.go. */
module LineGraph {
  import opened Common
  import opened Digraph
  import opened Adjacency

  datatype LineType = Dotted | Solid

  datatype Line = Line(id: Id, ahead: Id, behind: Id, kind: LineType, deleted: bool)

  type LineTable = map<Id, Line>

  ghost function LineEdges(lines: seq<Line>): set<Edge> {
    set l | l in lines :: (l.ahead, l.behind)
  }

  function Append(adj: Adj, a: Id, b: Id): Adj {
    adj[a := Successors(adj, a) + [b]]
  }

  lemma AppendEdge(adj: Adj, a: Id, b: Id)
    ensures EdgesOf(Append(adj, a, b)) == EdgesOf(adj) + {(a, b)}
  {
    if a in adj {
      AppendAddsEdge(adj, a, b);
    } else {
      EmptyListAddsNoEdge(adj, a);
      AppendAddsEdge(adj[a := []], a, b);
      assert adj[a := []][a := [] + [b]] == Append(adj, a, b);
    }
  }

  lemma LineEdgesTake(lines: seq<Line>, i: nat)
    requires i < |lines|
    ensures LineEdges(lines[..i + 1]) == LineEdges(lines[..i]) + {(lines[i].ahead, lines[i].behind)}
  {
    assert lines[..i + 1] == lines[..i] + [lines[i]];
    assert forall l :: l in lines[..i + 1] <==> l in lines[..i] || l == lines[i];
  }

  ghost function Reversed(E: set<Edge>): set<Edge> {
    set e | e in E :: (e.1, e.0)
  }

  // ---- breadth-first search that marks on dequeue ----

  ghost function Targets(E: set<Edge>): set<Id> {
    set e | e in E :: e.1
  }

  ghost predicate Exploring(adj: Adj, start: Id, target: Id, visited: set<Id>, waiting: set<Id>) {
    && start in visited + waiting && target !in visited
    && visited + waiting <= Targets(EdgesOf(adj)) + {start}
    && (forall v :: v in visited + waiting ==> Reaches(EdgesOf(adj), start, v))
    && (forall v :: v in visited ==> Elements(Successors(adj, v)) <= visited + waiting)
  }

  lemma ExploreStart(adj: Adj, start: Id, target: Id)
    ensures Exploring(adj, start, target, {}, {start})
  {
    ReachesSelf(EdgesOf(adj), start);
  }

  lemma ExploreStep(adj: Adj, start: Id, target: Id, visited: set<Id>, waiting: set<Id>, node: Id)
    requires Exploring(adj, start, target, visited, {node} + waiting) && node != target
    ensures Exploring(adj, start, target, visited + {node},
                      waiting + (Elements(Successors(adj, node)) - (visited + {node})))
    ensures node !in visited ==> |Targets(EdgesOf(adj)) + {start} - (visited + {node})|
                                 < |Targets(EdgesOf(adj)) + {start} - visited|
  {
    forall w | w in Successors(adj, node)
      ensures Reaches(EdgesOf(adj), start, w) && w in Targets(EdgesOf(adj))
    {
      EdgeIsSuccessor(adj, node, w);
      assert (node, w).1 == w;
      ReachesEdge(EdgesOf(adj), node, w);
      ReachesTrans(EdgesOf(adj), start, node, w);
    }
    var U := Targets(EdgesOf(adj)) + {start};
    if node !in visited {
      assert U - (visited + {node}) < U - visited by {
        assert node in U - visited;
      }
      SmallerSet(U - (visited + {node}), U - visited);
    }
  }

  lemma ExploreExhausted(adj: Adj, start: Id, target: Id, visited: set<Id>)
    requires Exploring(adj, start, target, visited, {})
    ensures !Reaches(EdgesOf(adj), start, target)
  {
    var E := EdgesOf(adj);
    assert visited + {} == visited;
    forall e | e in E && e.0 in visited
      ensures e.1 in visited
    {
      EdgeIsSuccessor(adj, e.0, e.1);
    }
    if Reaches(E, start, target) {
      ClosedKeeps(E, visited, start, target);
    }
  }

  class Graph {
    var adj: Adj
    var radj: Adj

    /** Loads every line, in order, into both adjacency lists. */
    constructor (lines: seq<Line>)
      ensures EdgesOf(adj) == LineEdges(lines)
      ensures EdgesOf(radj) == Reversed(LineEdges(lines))
    {
      adj, radj := map[], map[];
      new;
      for i := 0 to |lines|
        invariant EdgesOf(adj) == LineEdges(lines[..i])
        invariant EdgesOf(radj) == Reversed(LineEdges(lines[..i]))
      {
        hide EdgesOf;
        LineEdgesTake(lines, i);
        AppendEdge(adj, lines[i].ahead, lines[i].behind);
        AppendEdge(radj, lines[i].behind, lines[i].ahead);
        adj := Append(adj, lines[i].ahead, lines[i].behind);
        radj := Append(radj, lines[i].behind, lines[i].ahead);
      }
      assert lines[..|lines|] == lines;
    }

    /** Would head -> tail close a cycle: does tail already reach head? */
    method WouldCreateCycleLocked(head: Id, tail: Id) returns (r: bool)
      ensures r <==> Reaches(EdgesOf(adj), tail, head)
    {
      hide Reaches, EdgesOf;
      if head == tail {
        ReachesSelf(EdgesOf(adj), head);
        return true;
      }
      var visited: set<Id> := {};
      var queue := [tail];
      ExploreStart(adj, tail, head);
      assert Elements(queue) == {tail};
      while queue != []
        invariant Exploring(adj, tail, head, visited, Elements(queue))
        decreases |Targets(EdgesOf(adj)) + {tail} - visited|, |queue|
      {
        var node := queue[0];
        ElementsTail(queue);
        queue := queue[1..];
        if node == head {
          return true;
        }
        if node !in visited {
          ExploreStep(adj, tail, head, visited, Elements(queue), node);
          visited := visited + {node};
          queue := Unvisited(Successors(adj, node), visited, queue);
        } else {
          assert visited + ({node} + Elements(queue)) == visited + Elements(queue);
        }
      }
      assert Elements([]) == {};
      ExploreExhausted(adj, tail, head, visited);
      return false;
    }

    /** The successor loop: enqueue whatever is not yet visited, duplicates included. */
    static method Unvisited(next: seq<Id>, visited: set<Id>, queue0: seq<Id>) returns (queue: seq<Id>)
      ensures Elements(queue) == Elements(queue0) + (Elements(next) - visited)
    {
      queue := queue0;
      for i := 0 to |next|
        invariant Elements(queue) == Elements(queue0) + (Elements(next[..i]) - visited)
      {
        ElementsTake(next, i);
        if next[i] !in visited {
          ElementsAppend(queue, next[i]);
          queue := queue + [next[i]];
        }
      }
      assert next[..|next|] == next;
    }
  }

  // ---- the stored line table ----

  /** Every stored row counts, logically deleted ones included. */
  ghost function TableEdges(t: LineTable): set<Edge> {
    set id | id in t :: (t[id].ahead, t[id].behind)
  }

  ghost function LiveEdges(t: LineTable): set<Edge> {
    set id | id in t && !t[id].deleted :: (t[id].ahead, t[id].behind)
  }

  datatype LineError = LineCycle(ahead: Id, behind: Id) | StoreError

  datatype LineOp = Save(line: Line, storeOk: bool) | Delete(id: Id, storeOk: bool)

  ghost function ApplyLine(t: LineTable, op: LineOp): LineTable {
    match op
    case Save(l, storeOk) =>
      if Reaches(TableEdges(t), l.behind, l.ahead) || !storeOk then t else Upserted(t, l)
    case Delete(id, storeOk) =>
      if id in t && storeOk then t[id := t[id].(deleted := true)] else t
  }

  ghost function ApplyLines(t: LineTable, ops: seq<LineOp>): LineTable
    decreases |ops|
  {
    if ops == [] then t else ApplyLines(ApplyLine(t, ops[0]), ops[1..])
  }

  lemma UpsertEdges(t: LineTable, l: Line)
    ensures TableEdges(t[l.id := l]) == TableEdges(t - {l.id}) + {(l.ahead, l.behind)}
    ensures TableEdges(t - {l.id}) <= TableEdges(t)
  {
    var u := t[l.id := l];
    forall e | e in TableEdges(t - {l.id})
      ensures e in TableEdges(u)
    {
      var id :| id in t - {l.id} && e == (t[id].ahead, t[id].behind);
      assert id in u && u[id] == t[id];
    }
    assert l.id in u;
    forall e | e in TableEdges(u)
      ensures e in TableEdges(t - {l.id}) + {(l.ahead, l.behind)}
    {
      var id :| id in u && e == (u[id].ahead, u[id].behind);
      assert id != l.id ==> id in t - {l.id} && (t - {l.id})[id] == t[id];
    }
  }

  lemma ApplyLineKeepsAcyclic(t: LineTable, op: LineOp)
    requires Acyclic(TableEdges(t))
    ensures Acyclic(TableEdges(ApplyLine(t, op)))
  {
    match op
    case Save(l, storeOk) =>
      if !Reaches(TableEdges(t), l.behind, l.ahead) && storeOk {
        UpsertEdges(t, l.(deleted := false));
        AddEdgeKeepsAcyclic(TableEdges(t), l.ahead, l.behind);
        AcyclicSubset(TableEdges(ApplyLine(t, op)), TableEdges(t) + {(l.ahead, l.behind)});
      }
    case Delete(id, storeOk) =>
      if id in t && storeOk {
        UpsertEdges(t, t[id].(deleted := true, id := id));
        assert TableEdges(ApplyLine(t, op)) <= TableEdges(t);
        AcyclicSubset(TableEdges(ApplyLine(t, op)), TableEdges(t));
      }
  }

  /** However lines are saved, re-saved and deleted one call at a time, the stored lines,
      and so the live ones, stay acyclic. */
  lemma {:induction false} EveryLineSequenceStaysAcyclic(t: LineTable, ops: seq<LineOp>)
    requires Acyclic(TableEdges(t))
    ensures Acyclic(TableEdges(ApplyLines(t, ops))) && Acyclic(LiveEdges(ApplyLines(t, ops)))
    decreases |ops|
  {
    if ops == [] {
      AcyclicSubset(LiveEdges(t), TableEdges(t));
    } else {
      ApplyLineKeepsAcyclic(t, ops[0]);
      EveryLineSequenceStaysAcyclic(ApplyLine(t, ops[0]), ops[1..]);
    }
  }

  /** SaveLine refuses for a cycle exactly when the line would close one with the rows it
      checked; the row the upsert replaces is among them. */
  lemma RefusedExactlyForStoredCycles(t: LineTable, l: Line)
    requires Acyclic(TableEdges(t))
    ensures Reaches(TableEdges(t), l.behind, l.ahead) <==> !Acyclic(TableEdges(t) + {(l.ahead, l.behind)})
  {
    AddEdgeKeepsAcyclic(TableEdges(t), l.ahead, l.behind);
  }

  /** The row a save would leave behind. */
  function Upserted(t: LineTable, l: Line): LineTable {
    t[l.id := l.(deleted := false)]
  }

  lemma UpsertLiveEdges(t: LineTable, l: Line)
    ensures LiveEdges(Upserted(t, l)) == LiveEdges(t - {l.id}) + {(l.ahead, l.behind)}
    ensures LiveEdges(t - {l.id}) <= TableEdges(t)
  {
    var u := Upserted(t, l);
    forall e | e in LiveEdges(t - {l.id})
      ensures e in LiveEdges(u) && e in TableEdges(t)
    {
      var id :| id in t - {l.id} && !t[id].deleted && e == (t[id].ahead, t[id].behind);
      assert id in u && u[id] == t[id];
    }
    assert l.id in u && !u[l.id].deleted;
    forall e | e in LiveEdges(u)
      ensures e in LiveEdges(t - {l.id}) + {(l.ahead, l.behind)}
    {
      var id :| id in u && !u[id].deleted && e == (u[id].ahead, u[id].behind);
      assert id != l.id ==> id in t - {l.id} && (t - {l.id})[id] == t[id];
    }
  }

  /** When a refusal was not needed. All rows after the upsert would be acyclic exactly when
      every way back runs through the row being replaced; the live ones would be exactly
      when every way back runs through that row or a deleted one. */
  lemma NeedlessRefusal(t: LineTable, l: Line)
    requires Acyclic(TableEdges(t)) && Reaches(TableEdges(t), l.behind, l.ahead)
    ensures Acyclic(TableEdges(Upserted(t, l))) <==> !Reaches(TableEdges(t - {l.id}), l.behind, l.ahead)
    ensures Acyclic(LiveEdges(Upserted(t, l))) <==> !Reaches(LiveEdges(t - {l.id}), l.behind, l.ahead)
  {
    UpsertEdges(t, l.(deleted := false));
    AcyclicSubset(TableEdges(t - {l.id}), TableEdges(t));
    AddEdgeKeepsAcyclic(TableEdges(t - {l.id}), l.ahead, l.behind);
    UpsertLiveEdges(t, l);
    AcyclicSubset(LiveEdges(t - {l.id}), TableEdges(t));
    AddEdgeKeepsAcyclic(LiveEdges(t - {l.id}), l.ahead, l.behind);
  }

  lemma NoEdgesReachNothing(a: Id, b: Id)
    requires a != b
    ensures !Reaches({}, a, b)
  {
    if Reaches({}, a, b) {
      ClosedKeeps({}, {a}, a, b);
    }
  }

  lemma OneLineIsAcyclic(a: Id, b: Id)
    requires a != b
    ensures Acyclic({(a, b)})
  {
    NoEdgesReachNothing(b, a);
    AddEdgeKeepsAcyclic({}, a, b);
    assert {} + {(a, b)} == {(a, b)};
  }

  /** A single deleted line refuses its reverse, although no live line is left. */
  lemma DeletedLineRefuses(a: Id, b: Id, first: Id, second: Id, kind: LineType)
    requires a != b && first != second
    ensures var t, l := map[first := Line(first, a, b, kind, true)], Line(second, b, a, kind, false);
            && ApplyLine(t, Save(l, true)) == t && LiveEdges(t) == {}
            && Acyclic(TableEdges(t)) && Acyclic(LiveEdges(Upserted(t, l)))
  {
    var t, l := map[first := Line(first, a, b, kind, true)], Line(second, b, a, kind, false);
    assert first in t && TableEdges(t) == {(a, b)};
    assert t - {second} == t && LiveEdges(t) == {};
    OneLineIsAcyclic(a, b);
    ReachesEdge(TableEdges(t), a, b);
    NoEdgesReachNothing(a, b);
    NeedlessRefusal(t, l);
  }

  /** A single live line cannot be turned around, although the new row would replace it. */
  lemma OwnRowRefuses(a: Id, b: Id, id: Id, kind: LineType)
    requires a != b
    ensures var t, l := map[id := Line(id, a, b, kind, false)], Line(id, b, a, kind, false);
            ApplyLine(t, Save(l, true)) == t && Acyclic(TableEdges(t)) && Acyclic(TableEdges(Upserted(t, l)))
  {
    var t, l := map[id := Line(id, a, b, kind, false)], Line(id, b, a, kind, false);
    assert id in t && TableEdges(t) == {(a, b)};
    assert t - {id} == map[] && TableEdges(map[]) == {};
    OneLineIsAcyclic(a, b);
    ReachesEdge(TableEdges(t), a, b);
    NoEdgesReachNothing(a, b);
    NeedlessRefusal(t, l);
  }

  /** Turning a stored line around is always refused, deleted or not. */
  lemma TurningAroundIsRefused(t: LineTable, id: Id, kind: LineType)
    requires id in t
    ensures ApplyLine(t, Save(Line(id, t[id].behind, t[id].ahead, kind, false), true)) == t
  {
    ReachesEdge(TableEdges(t), t[id].ahead, t[id].behind);
  }

  /** Logical deletion removes no edge from the next check. */
  lemma DeleteKeepsEdges(t: LineTable, id: Id)
    requires id in t
    ensures TableEdges(t[id := t[id].(deleted := true)]) == TableEdges(t)
  {
    var u := t[id := t[id].(deleted := true)];
    forall k | k in t
      ensures (u[k].ahead, u[k].behind) == (t[k].ahead, t[k].behind)
    {
    }
    assert forall e :: e in TableEdges(u) <==> exists k :: k in u && e == (u[k].ahead, u[k].behind);
    forall e
      ensures e in TableEdges(u) <==> e in TableEdges(t)
    {
      if k :| k in t && e == (t[k].ahead, t[k].behind) {
        assert k in u && e == (u[k].ahead, u[k].behind);
      }
    }
  }

  class NodeServer {
    var lines: LineTable

    constructor ()
      ensures lines == map[]
    {
      lines := map[];
    }

    /** The query returns all rows: its `deleted = 0` condition is attached after the rows
        are read and has no effect. */
    method ListLines() returns (rows: seq<Line>)
      ensures LineEdges(rows) == TableEdges(lines)
    {
      rows := [];
      var pending := lines.Keys;
      assert lines - pending == map[];
      while pending != {}
        invariant pending <= lines.Keys
        invariant forall l :: l in rows <==> exists id :: id in lines.Keys - pending && lines[id] == l
      {
        var id :| id in pending;
        assert forall k :: k in lines.Keys - (pending - {id}) <==> k in lines.Keys - pending || k == id;
        assert forall l :: l in rows + [lines[id]] <==> l in rows || l == lines[id];
        rows := rows + [lines[id]];
        pending := pending - {id};
      }
    }

    /** Reads all rows, checks, then saves: two separate calls to the store. */
    method SaveLine(req: Line, listOk: bool, storeOk: bool) returns (err: Option<LineError>)
      modifies this
      ensures lines == ApplyLine(old(lines), Save(req, listOk && storeOk))
      ensures err == if !listOk then Some(StoreError)
                     else if Reaches(TableEdges(old(lines)), req.behind, req.ahead)
                       then Some(LineCycle(req.ahead, req.behind))
                     else if !storeOk then Some(StoreError)
                     else None
      ensures lines == if err == None then old(lines)[req.id := req.(deleted := false)] else old(lines)
      ensures old(Acyclic(TableEdges(lines))) ==> Acyclic(TableEdges(lines))
    {
      hide Reaches, TableEdges, LineEdges, EdgesOf, Acyclic;
      if Acyclic(TableEdges(lines)) {
        ApplyLineKeepsAcyclic(lines, Save(req, listOk && storeOk));
      }
      if !listOk {
        return Some(StoreError);
      }
      var rows := ListLines();
      var graph := new Graph(rows);
      var isCycle := graph.WouldCreateCycleLocked(req.ahead, req.behind);
      if isCycle {
        return Some(LineCycle(req.ahead, req.behind));
      }
      if !storeOk {
        return Some(StoreError);
      }
      lines := lines[req.id := req.(deleted := false)];
      return None;
    }

    method DeleteLine(id: Id, storeOk: bool) returns (err: Option<LineError>)
      modifies this
      ensures lines == ApplyLine(old(lines), Delete(id, storeOk))
      ensures err == if storeOk then None else Some(StoreError)
      ensures lines - {id} == old(lines) - {id} && (id in lines <==> id in old(lines))
      ensures id in lines ==> lines[id] == if storeOk then old(lines)[id].(deleted := true) else old(lines)[id]
      ensures TableEdges(lines) == TableEdges(old(lines))
    {
      if !storeOk {
        return Some(StoreError);
      }
      if id in lines {
        DeleteKeepsEdges(lines, id);
        lines := lines[id := lines[id].(deleted := true)];
      }
      return None;
    }
  }
}
