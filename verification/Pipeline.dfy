/** From the canvas to the finished batches: what saving lines, creating batches and running
    their workers give together. */
module Pipeline {
  import opened Common
  import opened Digraph
  import opened Adjacency
  import opened InstanceLinks
  import opened InstanceDag
  import opened DagBuilder
  import opened GraphBuild
  import opened Dispatch
  import opened WorkflowProtocol
  import opened WorkflowSafety
  import opened WorkflowResult
  import opened WorkflowTermination
  import opened WorkflowCompletion
  import opened Sums
  import LineGraph
  import Q = DelayQueue

  /** A batch and how the canvas was edited before it was created. */
  datatype Creation = Creation(ops: seq<LineGraph.LineOp>, batchId: Id, b: Batch)

  /** What NodeServer.InstanceCreate writes from the canvas lines t. */
  ghost predicate CreatedFrom(t: LineGraph.LineTable, b: Batch, batchId: Id) {
    && IsBatch(b.view, b.lines, b.list) && AllNew(b.view, batchId)
    && NodeEdges(b.view) == Inside(LineGraph.TableEdges(t), b.view.Keys)
    && forall n :: n in b.view ==> b.view[n].instances != []
  }

  lemma WrittenIsCreated(server: NodeServer, b: Batch, nodeId: Id, window: Window, cron: Cron,
                         stored: Option<seq<Node>>)
    requires server.Written(b, nodeId, window, cron, stored)
    ensures CreatedFrom(server.canvas.lines, b, window.batchId)
  {
  }

  /** Any number of batches, each from its own state of the canvas. InstanceCreate gives
      every batch new instance ids. */
  ghost predicate Created(cs: seq<Creation>) {
    && (forall c :: c in cs ==> CreatedFrom(LineGraph.ApplyLines(map[], c.ops), c.b, c.batchId))
    && forall i, j :: 0 <= i < j < |cs| ==> IdsOf(cs[i].b.list) !! IdsOf(cs[j].b.list)
  }

  ghost function Roots(cs: seq<Creation>): set<Id> {
    set c | c in cs && HasRoot(c.b) :: FirstId(c.b)
  }

  ghost function BatchLinks(cs: seq<Creation>): set<Edge>
    decreases |cs|
  {
    if cs == [] then {} else BatchLinks(cs[..|cs| - 1]) + LinkEdges(cs[|cs| - 1].b.lines)
  }

  ghost function Rows(cs: seq<Creation>): Instances
    decreases |cs|
  {
    if cs == [] then map[] else Rows(cs[..|cs| - 1]) + Table(cs[|cs| - 1].b.list)
  }

  /** Idle workers and an empty table of messages. */
  ghost predicate Empty(q: Q.QueueState) {
    Q.Init(q) && q.queue == map[]
  }

  /** No batch is stored yet and no root queued. */
  ghost function Start(cs: seq<Creation>, q: Q.QueueState): State {
    State(q, map[], map[], Roots(cs))
  }

  // ---- the links of one batch ----

  lemma BatchLinksAcyclic(c: Creation)
    requires CreatedFrom(LineGraph.ApplyLines(map[], c.ops), c.b, c.batchId)
    ensures Acyclic(NodeEdges(c.b.view)) && Acyclic(LinkEdges(c.b.lines))
  {
    hide NodeEdges, IsInstanceEdge, UniqueIds, LineGraph.TableEdges, Acyclic, LinkEdges, LineGraph.ApplyLines;
    var t := LineGraph.ApplyLines(map[], c.ops);
    EmptyCanvas();
    LineGraph.EveryLineSequenceStaysAcyclic(map[], c.ops);
    AcyclicSubset(NodeEdges(c.b.view), LineGraph.TableEdges(t));
    InstanceLinksAcyclic(c.b.view, LinkEdges(c.b.lines));
  }

  lemma EmptyCanvas()
    ensures Acyclic(LineGraph.TableEdges(map[]))
  {
  }

  /** Both ends of an instance link are instances of the batch. */
  lemma LinkEndsListed(view: DagView, list: seq<Instance>, e: Edge)
    requires IsListing(view, view.Keys, list) && IsInstanceEdge(view, e)
    ensures e.0 in IdsOf(list) && e.1 in IdsOf(list)
  {
    var u, n, i: nat :| InstanceLinks.Links(view, u, n, i, e);
    var up := view[u].instances;
    var x := up[Latest(up, view[n].instances[i].executeTime)];
    assert x in view[u].instances && x in list;
    assert view[n].instances[i] in list;
  }

  lemma EndsListed(c: Creation)
    requires CreatedFrom(LineGraph.ApplyLines(map[], c.ops), c.b, c.batchId)
    ensures Ends(LinkEdges(c.b.lines)) <= IdsOf(c.b.list)
  {
    hide NodeEdges, IsInstanceEdge, UniqueIds, LineGraph.TableEdges, LinkEdges, LineGraph.ApplyLines, IsListing, IdsOf;
    forall e | e in LinkEdges(c.b.lines)
      ensures e.0 in IdsOf(c.b.list) && e.1 in IdsOf(c.b.list)
    {
      LinkEndsListed(c.b.view, c.b.list, e);
    }
  }

  // ---- all batches together ----

  ghost function AllIds(cs: seq<Creation>): set<Id> {
    set c, x | c in cs && x in IdsOf(c.b.list) :: x
  }

  lemma Prefix(cs: seq<Creation>)
    requires Created(cs) && cs != []
    ensures Created(cs[..|cs| - 1]) && AllIds(cs[..|cs| - 1]) !! IdsOf(cs[|cs| - 1].b.list)
    ensures AllIds(cs) == AllIds(cs[..|cs| - 1]) + IdsOf(cs[|cs| - 1].b.list)
  {
    hide CreatedFrom, IdsOf;
    var n := |cs| - 1;
    assert cs == cs[..n] + [cs[n]];
    assert forall c :: c in cs <==> c in cs[..n] || c == cs[n];
  }

  lemma {:induction false} LinksAcyclic(cs: seq<Creation>)
    requires Created(cs)
    ensures Acyclic(BatchLinks(cs)) && Ends(BatchLinks(cs)) <= AllIds(cs)
    decreases |cs|
  {
    if cs != [] {
      hide CreatedFrom, Acyclic, LinkEdges, AllIds, IdsOf;
      var n := |cs| - 1;
      Prefix(cs);
      LinksAcyclic(cs[..n]);
      assert cs[n] in cs;
      BatchLinksAcyclic(cs[n]);
      EndsListed(cs[n]);
      ApartAcyclic(BatchLinks(cs[..n]), LinkEdges(cs[n].b.lines));
    }
  }

  lemma {:induction false} RowsOf(cs: seq<Creation>)
    requires Created(cs)
    ensures Rows(cs).Keys == AllIds(cs)
    ensures forall x :: x in Rows(cs) ==> Rows(cs)[x].status == NotReady
    decreases |cs|
  {
    if cs != [] {
      hide CreatedFrom, IdsOf, AllIds;
      var n := |cs| - 1;
      Prefix(cs);
      RowsOf(cs[..n]);
      assert cs[n] in cs;
      NewRows(cs[n]);
    }
  }

  lemma NewRows(c: Creation)
    requires CreatedFrom(LineGraph.ApplyLines(map[], c.ops), c.b, c.batchId)
    ensures Table(c.b.list).Keys == IdsOf(c.b.list)
    ensures forall x :: x in Table(c.b.list) ==> Table(c.b.list)[x].status == NotReady
  {
    hide NodeEdges, IsInstanceEdge, UniqueIds, LineGraph.TableEdges, LinkEdges, LineGraph.ApplyLines;
    var table := Table(c.b.list);
    TableMeaning(c.b.list);
    forall x | x in table
      ensures table[x].status == NotReady
    {
      var row :| row in c.b.list && row.id == x;
    }
  }

  lemma RootListed(c: Creation)
    requires CreatedFrom(LineGraph.ApplyLines(map[], c.ops), c.b, c.batchId) && HasRoot(c.b)
    ensures FirstId(c.b) in IdsOf(c.b.list)
  {
    hide NodeEdges, UniqueIds, LineGraph.TableEdges, LineGraph.ApplyLines, IsListing;
    RootIsListed(c.b);
  }

  /** All rows of all batches can be inserted at once, or batch by batch. */
  lemma RowsFit(cs: seq<Creation>)
    requires Created(cs)
    ensures LinesKnown(BatchLinks(cs), Rows(cs)) && forall x :: x in Rows(cs) ==> Rows(cs)[x].status == NotReady
  {
    hide CreatedFrom, Acyclic, IdsOf;
    LinksAcyclic(cs);
    RowsOf(cs);
    forall e | e in BatchLinks(cs)
      ensures e.0 in Rows(cs) && e.1 in Rows(cs)
    {
      EdgeEnds(BatchLinks(cs), e.0, e.1);
    }
  }

  lemma BatchesStart(cs: seq<Creation>, q: Q.QueueState)
    requires Created(cs) && Empty(q)
    ensures Acyclic(BatchLinks(cs)) && Init(BatchLinks(cs), Roots(cs), Start(cs, q))
  {
    hide CreatedFrom, Acyclic, IdsOf;
    LinksAcyclic(cs);
  }

  /** However the canvas was edited before and between them, batches run safely together
      under every interleaving, whenever their rows come, make only boundedly many steps, and
      once everything has settled have run exactly the least set they should. */
  lemma EveryBatchRuns(cs: seq<Creation>, q: Q.QueueState, acts: seq<Action>, t: State)
    requires Created(cs) && Empty(q) && IsRun(BatchLinks(cs), Start(cs, q), acts, t)
    ensures var E, roots := BatchLinks(cs), Roots(cs);
            && Acyclic(E)
            && QueuedOnlyIfReleased(E, roots, t)
            && ProgressCount(acts) <= Total(PublishCosts(E, roots))
            && (Settled(t) ==> IsLeast(E, Begun(roots, t), Succeeded(t)))
  {
    hide IsLeast, PublishCosts, Init, Acyclic, Settled, Created, BatchLinks, Roots, QueuedOnlyIfReleased;
    var E, roots, s := BatchLinks(cs), Roots(cs), Start(cs, q);
    BatchesStart(cs, q);
    QueuedOnlyWhenReleased(E, roots, s, acts, t);
    EveryRunTerminates(E, roots, s, acts, t);
    if Settled(t) {
      SettledRunIsLeast(E, roots, s, acts, t);
    }
  }

  /** A root that is queued although its batch is not stored never runs: a run that goes on
      from there keeps its message, never loads it, and never ends it as successful. */
  lemma LostBatchNeverRuns(cs: seq<Creation>, q: Q.QueueState, acts: seq<Action>, m: State, id: nat,
                           more: seq<Action>, t: State)
    requires Created(cs) && Empty(q)
    requires IsRun(BatchLinks(cs), Start(cs, q), acts, m) && IsRun(BatchLinks(cs), m, more, t)
    requires id in m.q.queue && m.q.queue[id].payload !in m.instances
    ensures id in t.q.queue && t.q.queue[id].payload !in t.instances && t.q.queue[id].status != Q.Success
    ensures forall w :: AtStep(t, w) && t.q.workers[w].id == id ==> !Enabled(BatchLinks(cs), t, Load(w))
  {
    hide Created, BatchLinks, Roots, Acyclic, Init, Local, IsRun, Enabled;
    var E, roots := BatchLinks(cs), Roots(cs);
    BatchesStart(cs, q);
    InitLocal(E, roots, Start(cs, q));
    RunKeepsLocal(E, roots, Start(cs, q), acts, m);
    UnstoredNeverRuns(E, roots, m, more, t, id);
    RunKeepsLocal(E, roots, m, more, t);
    forall w | AtStep(t, w) && t.q.workers[w].id == id
      ensures !Enabled(E, t, Load(w))
    {
      CannotLoad(E, roots, t, w);
    }
  }

  lemma CannotLoad(E: set<Edge>, roots: set<Id>, t: State, w: nat)
    requires Local(E, roots, t) && AtStep(t, w) && t.q.queue[t.q.workers[w].id].payload !in t.instances
    ensures !Enabled(E, t, Load(w))
  {
    HeldRow(E, roots, t, w);
  }

  /** With the handler registered and a worker, some run stores all batches, queues all roots
      and settles everything. */
  lemma EveryBatchCanSettle(cs: seq<Creation>, q: Q.QueueState)
    requires Created(cs) && Empty(q) && TOPIC in q.topics && q.workers != map[]
    ensures exists acts, t ::
              && IsRun(BatchLinks(cs), Start(cs, q), acts, t) && Settled(t)
              && Rows(cs).Keys <= t.instances.Keys && Started(Roots(cs), t) == Roots(cs)
  {
    hide Created, Settled, Acyclic, Roots, BatchLinks, Rows;
    var E, s, insert := BatchLinks(cs), Start(cs, q), Insert(Rows(cs));
    BatchesStart(cs, q);
    RowsFit(cs);
    assert s.instances + Rows(cs) == Rows(cs);
    var m := Apply(E, s, insert);
    SettledRunExists(E, Roots(cs), m, Roots(cs));
    var rest, t :| IsRun(E, m, rest, t) && Settled(t) && Started(Roots(cs), t) == Roots(cs)
                   && m.instances.Keys <= t.instances.Keys;
    OneAction(E, s, insert);
    Join(E, s, [insert], m, rest, t);
  }

  // ---- when does everything run? ----

  lemma UpsAreEdges(E: set<Edge>, u: Id, d: Id)
    ensures u in Ups(E, d) <==> (u, d) in E
  {
    assert (u, d).0 == u && (u, d).1 == d;
  }

  /** In a part of the graph that no edge enters, everything runs exactly when whatever has
      no upstreams was started. */
  lemma AllRunExactly(E: set<Edge>, started: set<Id>, V: set<Id>, S: set<Id>)
    requires Acyclic(E) && IsLeast(E, started, S)
    requires forall e :: e in E && e.1 in V ==> e.0 in V
    ensures V <= S <==> forall x :: x in V ==> x in started || Ups(E, x) != {}
  {
    hide Acyclic, Ups, IsLeast, UpsClosed;
    if x :| x in V && x !in started && Ups(E, x) == {} {
      SourceStaysOut(E, started, S, x);
    } else {
      EveryoneElseFollows(E, started, V, S);
    }
  }

  lemma SourceStaysOut(E: set<Edge>, started: set<Id>, S: set<Id>, x: Id)
    requires IsLeast(E, started, S) && x !in started && Ups(E, x) == {}
    ensures x !in S
  {
    var T := S - {x};
    forall d | Ups(E, d) != {} && Ups(E, d) <= T
      ensures d in T
    {
      assert Ups(E, d) <= S;
    }
    assert UpsClosed(E, T);
  }

  lemma EveryoneElseFollows(E: set<Edge>, started: set<Id>, V: set<Id>, S: set<Id>)
    requires Acyclic(E) && IsLeast(E, started, S)
    requires forall e :: e in E && e.1 in V ==> e.0 in V
    requires forall x :: x in V ==> x in started || Ups(E, x) != {}
    ensures V <= S
  {
    hide IsLeast, HasPredecessor, Ups;
    forall n | n in V
      ensures n in S
    {
      if n !in S {
        forall v | v in V - S
          ensures HasPredecessor(E, V - S, v)
        {
          OneFollows(E, started, V, S, v);
        }
        NoSourceImpliesCycle(E, V - S, n);
      }
    }
  }

  /** What is not in the least closed set waits for something that is not in it either. */
  lemma OneFollows(E: set<Edge>, started: set<Id>, V: set<Id>, S: set<Id>, v: Id)
    requires IsLeast(E, started, S) && v in V - S && (v in started || Ups(E, v) != {})
    requires forall e :: e in E && e.1 in V ==> e.0 in V
    ensures HasPredecessor(E, V - S, v)
  {
    assert Ups(E, v) != {} && !(Ups(E, v) <= S);
    var u :| u in Ups(E, v) && u !in S;
    UpsAreEdges(E, u, v);
    assert (u, v).0 in V;
  }

  // ---- from the links of a batch to its nodes ----

  /** An instance has an upstream instance exactly when its node has an upstream node. */
  lemma LinkedExactlyWithUpstreams(c: Creation, n: Id, i: nat)
    requires CreatedFrom(LineGraph.ApplyLines(map[], c.ops), c.b, c.batchId)
    requires n in c.b.view && i < |c.b.view[n].instances|
    ensures Ups(LinkEdges(c.b.lines), c.b.view[n].instances[i].id) != {} <==>
            HasPredecessor(NodeEdges(c.b.view), c.b.view.Keys, n)
  {
    hide LineGraph.TableEdges, LineGraph.ApplyLines, LinkEdges, AllNew, IsListing, DistinctIds, DistinctPairs;
    var view, E, x := c.b.view, LinkEdges(c.b.lines), c.b.view[n].instances[i];
    if HasPredecessor(NodeEdges(view), view.Keys, n) {
      var u :| u in view.Keys && (u, n) in NodeEdges(view);
      var e := (PickId(UpstreamsOf(view, n), u, x.executeTime), x.id);
      assert InstanceLinks.Links(view, u, n, i, e);
      assert IsInstanceEdge(view, e);
      UpsAreEdges(E, e.0, x.id);
    }
    if a :| a in Ups(E, x.id) {
      UpsAreEdges(E, a, x.id);
      assert IsInstanceEdge(view, (a, x.id));
      var u, m, j: nat :| InstanceLinks.Links(view, u, m, j, (a, x.id));
      OneHome(view, n, i, m, j);
      assert (u, n) in NodeEdges(view);
    }
  }

  lemma OneHome(view: DagView, n: Id, i: nat, m: Id, j: nat)
    requires UniqueIds(view) && n in view && i < |view[n].instances| && m in view && j < |view[m].instances|
    requires view[n].instances[i].id == view[m].instances[j].id
    ensures n == m && i == j
  {
    assert view[n].instances[i] in view[n].instances && view[m].instances[j] in view[m].instances;
    assert view[n].instances[i].id in IdsOf(view[n].instances) && view[m].instances[j].id in IdsOf(view[m].instances);
  }

  /** The root fires once in the window, and every other node has an upstream node. */
  ghost predicate SoleSource(b: Batch) {
    && b.root in b.view && |b.view[b.root].instances| == 1
    && forall n :: n in b.view && n != b.root ==> HasPredecessor(NodeEdges(b.view), b.view.Keys, n)
  }

  /** The rows of the batch are there. */
  ghost predicate Stored(b: Batch, t: State) {
    IdsOf(b.list) <= t.instances.Keys
  }

  /** The batch's root is queued. */
  ghost predicate Launched(b: Batch, t: State) {
    HasRoot(b) && FirstId(b) !in t.waiting
  }

  /** The instance is the queued one or belongs to a node with an upstream node. */
  ghost predicate Led(b: Batch, launched: bool, n: Id, i: nat) {
    (launched && n == b.root && i == 0) || HasPredecessor(NodeEdges(b.view), b.view.Keys, n)
  }

  ghost predicate AllLed(b: Batch, launched: bool) {
    forall n, i: nat :: n in b.view && i < |b.view[n].instances| ==> Led(b, launched, n, i)
  }

  lemma AllLedMeansSoleSource(b: Batch, launched: bool)
    requires Acyclic(NodeEdges(b.view)) && b.view != map[]
    requires forall n :: n in b.view ==> b.view[n].instances != []
    ensures AllLed(b, launched) <==> launched && SoleSource(b)
  {
    hide Acyclic, NodeEdges;
    if AllLed(b, launched) {
      assert b.view.Keys != {};
      var some :| some in b.view.Keys;
      if n :| n in b.view && !HasPredecessor(NodeEdges(b.view), b.view.Keys, n) {
        OnlyFirst(b, launched, n);
        forall m | m in b.view && m != b.root
          ensures HasPredecessor(NodeEdges(b.view), b.view.Keys, m)
        {
          assert Led(b, launched, m, 0);
        }
      } else {
        NoSourceImpliesCycle(NodeEdges(b.view), b.view.Keys, some);
        CycleIsNone(NodeEdges(b.view));
      }
    }
  }

  lemma CycleIsNone(E: set<Edge>)
    requires Acyclic(E)
    ensures forall c :: !OnCycle(E, c)
  {
  }

  lemma OnlyFirst(b: Batch, launched: bool, n: Id)
    requires AllLed(b, launched) && n in b.view && b.view[n].instances != []
    requires !HasPredecessor(NodeEdges(b.view), b.view.Keys, n)
    ensures launched && n == b.root && |b.view[n].instances| == 1
  {
    assert Led(b, launched, n, 0);
    assert |b.view[n].instances| > 1 ==> Led(b, launched, n, 1);
  }

  // ---- one batch among many ----

  lemma {:induction false} LinksMember(cs: seq<Creation>, e: Edge)
    ensures e in BatchLinks(cs) <==> exists c :: c in cs && e in LinkEdges(c.b.lines)
    decreases |cs|
  {
    if cs != [] {
      hide LinkEdges;
      var n := |cs| - 1;
      LinksMember(cs[..n], e);
      assert cs == cs[..n] + [cs[n]];
      assert forall c :: c in cs <==> c in cs[..n] || c == cs[n];
    }
  }

  /** Batches have no instance in common. */
  lemma SameBatch(cs: seq<Creation>, c: Creation, d: Creation, x: Id)
    requires Created(cs) && c in cs && d in cs && x in IdsOf(c.b.list) && x in IdsOf(d.b.list)
    ensures c == d
  {
    hide CreatedFrom, IdsOf;
    var i :| 0 <= i < |cs| && cs[i] == c;
    var j :| 0 <= j < |cs| && cs[j] == d;
  }

  /** No link enters a batch from outside. */
  lemma LinksStayInside(cs: seq<Creation>, c: Creation, a: Id, x: Id)
    requires Created(cs) && c in cs && x in IdsOf(c.b.list)
    ensures (a, x) in BatchLinks(cs) <==> (a, x) in LinkEdges(c.b.lines)
    ensures (a, x) in BatchLinks(cs) ==> a in IdsOf(c.b.list)
  {
    hide CreatedFrom, IdsOf, LinkEdges, Ends;
    LinksMember(cs, (a, x));
    if (a, x) in BatchLinks(cs) {
      var d :| d in cs && (a, x) in LinkEdges(d.b.lines);
      EndsListed(d);
      EdgeEnds(LinkEdges(d.b.lines), a, x);
      SameBatch(cs, c, d, x);
    }
  }

  lemma UpsInside(cs: seq<Creation>, c: Creation, x: Id)
    requires Created(cs) && c in cs && x in IdsOf(c.b.list)
    ensures Ups(BatchLinks(cs), x) == Ups(LinkEdges(c.b.lines), x)
  {
    hide Created, IdsOf, LinkEdges, BatchLinks, Ups;
    forall a
      ensures a in Ups(BatchLinks(cs), x) <==> a in Ups(LinkEdges(c.b.lines), x)
    {
      UpsAreEdges(BatchLinks(cs), a, x);
      UpsAreEdges(LinkEdges(c.b.lines), a, x);
      LinksStayInside(cs, c, a, x);
    }
  }

  lemma BegunInside(cs: seq<Creation>, c: Creation, t: State, x: Id)
    requires Created(cs) && c in cs && x in IdsOf(c.b.list) && Stored(c.b, t)
    ensures x in Begun(Roots(cs), t) <==> Launched(c.b, t) && x == FirstId(c.b)
  {
    hide CreatedFrom, IdsOf;
    if x in Roots(cs) {
      var d :| d in cs && HasRoot(d.b) && x == FirstId(d.b);
      RootListed(d);
      SameBatch(cs, c, d, x);
    }
  }

  ghost predicate IsInstance(b: Batch, n: Id, i: nat, x: Id) {
    n in b.view && i < |b.view[n].instances| && b.view[n].instances[i].id == x
  }

  lemma Home(cs: seq<Creation>, c: Creation, x: Id) returns (n: Id, i: nat)
    requires Created(cs) && c in cs && x in IdsOf(c.b.list)
    ensures IsInstance(c.b, n, i, x)
  {
    hide NodeEdges, IsInstanceEdge, UniqueIds, LineGraph.TableEdges, LinkEdges, LineGraph.ApplyLines;
    var row :| row in c.b.list && row.id == x;
    n :| n in c.b.view && row in c.b.view[n].instances;
    i :| 0 <= i < |c.b.view[n].instances| && c.b.view[n].instances[i] == row;
  }

  /** Instance by instance and node by node, "started or with an upstream" is the same. */
  lemma LedEverywhere(cs: seq<Creation>, c: Creation, t: State)
    requires Created(cs) && c in cs && Stored(c.b, t)
    ensures AllLed(c.b, Launched(c.b, t)) <==>
            forall x :: x in IdsOf(c.b.list) ==> x in Begun(Roots(cs), t) || Ups(BatchLinks(cs), x) != {}
  {
    hide Created, Roots, Begun, BatchLinks, Ups, Led, Launched, IdsOf, Stored;
    if AllLed(c.b, Launched(c.b, t)) {
      forall x | x in IdsOf(c.b.list)
        ensures x in Begun(Roots(cs), t) || Ups(BatchLinks(cs), x) != {}
      {
        var n, i := Home(cs, c, x);
        LedHere(cs, c, t, n, i);
      }
    }
    if forall x :: x in IdsOf(c.b.list) ==> x in Begun(Roots(cs), t) || Ups(BatchLinks(cs), x) != {} {
      forall n, i: nat | n in c.b.view && i < |c.b.view[n].instances|
        ensures Led(c.b, Launched(c.b, t), n, i)
      {
        LedHere(cs, c, t, n, i);
      }
    }
  }

  lemma LedHere(cs: seq<Creation>, c: Creation, t: State, n: Id, i: nat)
    requires Created(cs) && c in cs && Stored(c.b, t) && n in c.b.view && i < |c.b.view[n].instances|
    ensures var x := c.b.view[n].instances[i].id;
            && x in IdsOf(c.b.list)
            && (Led(c.b, Launched(c.b, t), n, i) <==> x in Begun(Roots(cs), t) || Ups(BatchLinks(cs), x) != {})
  {
    hide NodeEdges, IsInstanceEdge, UniqueIds, LineGraph.TableEdges, LinkEdges, LineGraph.ApplyLines, Roots, Begun,
         BatchLinks, Ups, IsListing, HasPredecessor, Stored;
    var x := c.b.view[n].instances[i].id;
    InstanceListed(c.b, n, i);
    BegunInside(cs, c, t, x);
    UpsInside(cs, c, x);
    LinkedExactlyWithUpstreams(c, n, i);
    if Launched(c.b, t) && x == FirstId(c.b) {
      OneHome(c.b.view, n, i, c.b.root, 0);
    }
  }

  lemma InstanceListed(b: Batch, n: Id, i: nat)
    requires IsListing(b.view, b.view.Keys, b.list) && n in b.view && i < |b.view[n].instances|
    ensures b.view[n].instances[i].id in IdsOf(b.list)
  {
    assert b.view[n].instances[i] in b.list;
  }

  /** Among any number of batches, a settled one has run all its instances exactly when it is
      stored, its root is queued, is due once in the window, and is the only node without an
      upstream node in the batch. */
  lemma BatchCompletesExactly(cs: seq<Creation>, c: Creation, q: Q.QueueState, acts: seq<Action>, t: State)
    requires Created(cs) && c in cs && c.b.view != map[] && Empty(q)
    requires IsRun(BatchLinks(cs), Start(cs, q), acts, t) && Settled(t)
    ensures IdsOf(c.b.list) <= Succeeded(t) <==> Stored(c.b, t) && Launched(c.b, t) && SoleSource(c.b)
  {
    if Stored(c.b, t) {
      StoredBatchCompletesExactly(cs, c, q, acts, t);
    } else {
      assert Succeeded(t) <= t.instances.Keys;
    }
  }

  lemma StoredBatchCompletesExactly(cs: seq<Creation>, c: Creation, q: Q.QueueState, acts: seq<Action>, t: State)
    requires Created(cs) && c in cs && c.b.view != map[] && Empty(q) && Stored(c.b, t)
    requires IsRun(BatchLinks(cs), Start(cs, q), acts, t) && Settled(t)
    ensures IdsOf(c.b.list) <= Succeeded(t) <==> Launched(c.b, t) && SoleSource(c.b)
  {
    hide IsLeast, Acyclic, Settled, Created, BatchLinks, Roots, Start, Begun, Ups, IdsOf, AllLed, SoleSource, Launched,
         QueuedOnlyIfReleased, PublishCosts, Stored;
    EveryBatchRuns(cs, q, acts, t);
    forall e | e in BatchLinks(cs) && e.1 in IdsOf(c.b.list)
      ensures e.0 in IdsOf(c.b.list)
    {
      LinksStayInside(cs, c, e.0, e.1);
    }
    AllRunExactly(BatchLinks(cs), Begun(Roots(cs), t), IdsOf(c.b.list), Succeeded(t));
    LedEverywhere(cs, c, t);
    NodesOf(cs, c);
    AllLedMeansSoleSource(c.b, Launched(c.b, t));
  }

  lemma NodesOf(cs: seq<Creation>, c: Creation)
    requires Created(cs) && c in cs
    ensures Acyclic(NodeEdges(c.b.view)) && forall n :: n in c.b.view ==> c.b.view[n].instances != []
  {
    hide Acyclic;
    BatchLinksAcyclic(c);
  }

  /** The same, in terms of the canvas, the stored nodes and the window: whether everything
      will run is known before the batch is created. */
  lemma SoleSourceBeforehand(server: NodeServer, b: Batch, nodeId: Id, window: Window, cron: Cron, stored: seq<Node>)
    requires server.Written(b, nodeId, window, cron, Some(stored))
    ensures SoleSource(b) <==> server.OneSource(nodeId, window, cron, stored)
  {
    hide IsBatch, AllNew, NodeEdges, LineGraph.TableEdges, NodeServer.RootId, DueTimes, TimesOf;
    forall n | n in b.view
      ensures HasPredecessor(NodeEdges(b.view), b.view.Keys, n) <==>
              HasPredecessor(LineGraph.TableEdges(server.canvas.lines), b.view.Keys, n)
    {
      InsideKeepsPredecessors(LineGraph.TableEdges(server.canvas.lines), b.view.Keys, n);
    }
  }

  lemma InsideKeepsPredecessors(E: set<Edge>, R: set<Id>, v: Id)
    requires v in R
    ensures HasPredecessor(Inside(E, R), R, v) <==> HasPredecessor(E, R, v)
  {
    if u :| u in R && (u, v) in E {
      assert (u, v).0 == u && (u, v).1 == v;
    }
  }

  // ---- a root that is due twice ----

  /** One stored node without lines that fires twice in the window. */
  ghost function TwoDue(root: Id, first: Instance, second: Instance): Batch {
    Batch(map[root := NodeView([first, second], {})], root, [], [first, second])
  }

  lemma TwoDueIsCreated(root: Id, first: Instance, second: Instance, batchId: Id)
    requires first.id != second.id && first.status == second.status == NotReady
    requires first.batchId == second.batchId == batchId
    ensures CreatedFrom(map[], TwoDue(root, first, second), batchId)
  {
    var b := TwoDue(root, first, second);
    assert NodeEdges(b.view) == {} && Inside(LineGraph.TableEdges(map[]), b.view.Keys) == {};
    assert Active(UpstreamsOf(b.view, root)) == {};
    assert b.view[root].instances == b.list;
    assert LinkEdges(b.lines) == {};
  }

  /** Only the first of the two instances ever runs, in a run that exists. */
  lemma RootDueTwice(root: Id, first: Instance, second: Instance, batchId: Id, q: Q.QueueState)
    requires first.id != second.id && first.status == second.status == NotReady
    requires first.batchId == second.batchId == batchId
    requires Empty(q) && TOPIC in q.topics && q.workers != map[]
    ensures var cs := [Creation([], batchId, TwoDue(root, first, second))];
            && Created(cs)
            && exists acts, t ::
                 && IsRun(BatchLinks(cs), Start(cs, q), acts, t) && Settled(t)
                 && t.instances.Keys >= {first.id, second.id} && Succeeded(t) == {first.id}
  {
    hide *;
    var cs := [Creation([], batchId, TwoDue(root, first, second))];
    TwoDueAlone(root, first, second, batchId);
    EveryBatchCanSettle(cs, q);
    var acts, t :| IsRun(BatchLinks(cs), Start(cs, q), acts, t) && Settled(t)
                   && Rows(cs).Keys <= t.instances.Keys && Started(Roots(cs), t) == Roots(cs);
    EveryBatchRuns(cs, q, acts, t);
    AllBegun(Roots(cs), t);
    NoLinks(BatchLinks(cs), {first.id}, Succeeded(t));
  }

  lemma TwoDueAlone(root: Id, first: Instance, second: Instance, batchId: Id)
    requires first.id != second.id && first.status == second.status == NotReady
    requires first.batchId == second.batchId == batchId
    ensures var cs := [Creation([], batchId, TwoDue(root, first, second))];
            Created(cs) && BatchLinks(cs) == {} && Roots(cs) == {first.id} && Rows(cs).Keys == {first.id, second.id}
  {
    hide CreatedFrom, Table;
    var c := Creation([], batchId, TwoDue(root, first, second));
    var cs := [c];
    TwoDueIsCreated(root, first, second, batchId);
    RowsOf(cs);
    assert Roots(cs) == {first.id} by {
      assert c in cs && HasRoot(c.b) && FirstId(c.b) == first.id;
    }
    assert c.b.list[0] == first && c.b.list[1] == second;
    assert IdsOf(c.b.list) == {first.id, second.id};
    assert c in cs && forall d :: d in cs ==> d == c;
    assert AllIds(cs) == IdsOf(c.b.list);
  }

  lemma AllBegun(roots: set<Id>, t: State)
    requires Started(roots, t) == roots && roots <= t.instances.Keys
    ensures Begun(roots, t) == roots
  {
  }

  lemma NoLinks(E: set<Edge>, started: set<Id>, S: set<Id>)
    requires E == {} && IsLeast(E, started, S)
    ensures S == started
  {
    assert UpsClosed(E, started);
  }
}
