/** The server's calls in any order: saving and deleting lines and creating batches lead to a
    state that the workflow protocol reaches by inserting rows and queueing roots. */
module Session {
  import opened Common
  import opened Digraph
  import opened InstanceLinks
  import opened InstanceDag
  import opened DagBuilder
  import opened GraphBuild
  import opened Dispatch
  import opened WorkflowProtocol
  import opened WorkflowSafety
  import opened Pipeline
  import LineGraph
  import Q = DelayQueue

  datatype Call =
    | Save(line: LineGraph.Line, listOk: bool, storeOk: bool)
    | Delete(id: Id, storeOk: bool)
    | Create(nodeId: Id, window: Window, cron: Cron, nodes: Option<seq<Node>>, outcome: Outcome, drift: nat)

  /** A call of InstanceCreate that got past the write: whether its batch was committed and
      whether its root was queued. */
  datatype Made = Made(c: Creation, stored: bool, queued: bool, drift: nat)

  ghost function Creations(ms: seq<Made>): seq<Creation> {
    seq(|ms|, i requires 0 <= i < |ms| => ms[i].c)
  }

  ghost predicate Legal(ms: seq<Made>) {
    Created(Creations(ms)) && forall i :: 0 <= i < |ms| && ms[i].queued ==> HasRoot(ms[i].c.b)
  }

  ghost function Inserted(ms: seq<Made>): Instances
    decreases |ms|
  {
    if ms == [] then map[] else
      var last := ms[|ms| - 1];
      Inserted(ms[..|ms| - 1]) + if last.stored then Table(last.c.b.list) else map[]
  }

  ghost function QueueAfter(q: Q.QueueState, ms: seq<Made>): Q.QueueState
    decreases |ms|
  {
    if ms == [] then q else
      var last, before := ms[|ms| - 1], QueueAfter(q, ms[..|ms| - 1]);
      if last.queued && HasRoot(last.c.b) then Q.Apply(before, MessageOf(last)) else before
  }

  ghost function MessageOf(m: Made): Q.QueueAction
    requires HasRoot(m.c.b)
  {
    RootMessage(m.c.b.root, m.c.b.view[m.c.b.root].instances[0], m.drift)
  }

  ghost function QueuedIds(ms: seq<Made>): set<Id> {
    set m | m in ms && m.queued && HasRoot(m.c.b) :: FirstId(m.c.b)
  }

  // ---- the calls ----

  /** The line operations among the calls. */
  ghost function OpsOf(calls: seq<Call>): seq<LineGraph.LineOp>
    decreases |calls|
  {
    if calls == [] then [] else
      var n := |calls| - 1;
      OpsOf(calls[..n]) + match calls[n]
                          case Save(line, listOk, storeOk) => [LineGraph.Save(line, listOk && storeOk)]
                          case Delete(id, storeOk) => [LineGraph.Delete(id, storeOk)]
                          case Create(_, _, _, _, _, _) => []
  }

  /** What a creating call made, on the canvas that the line operations before it left. */
  ghost predicate MadeBy(m: Made, call: Call, before: seq<Call>) {
    && call.Create? && call.nodes.Some? && call.outcome.existsOk && call.outcome.linesOk && call.outcome.writeOk
    && m.c.ops == OpsOf(before) && m.c.batchId == call.window.batchId && m.drift == call.drift
    && m.c.b.root == (if call.nodeId in NodeIds(call.nodes.value) then call.nodeId else Id(""))
    && (m.stored <==> call.outcome.commitOk) && (m.queued <==> call.outcome.publishOk && HasRoot(m.c.b))
  }

  /** A creating call that makes no batch: it is stored already, or the call fails before the
      write or with it. */
  ghost predicate MakesNothing(call: Call, instances: Instances)
    requires call.Create?
  {
    || HasBatch(instances, call.window.batchId) || call.nodes.None?
    || !call.outcome.existsOk || !call.outcome.linesOk || !call.outcome.writeOk
    || exists node :: node in call.nodes.value && call.cron.parse(node.schedule).None?
  }

  /** The batches made are those of the calls, in order: one for every creating call whose
      batch is not stored yet and that does not fail before the write. */
  ghost predicate Accounted(calls: seq<Call>, ms: seq<Made>)
    decreases |calls|
  {
    if calls == [] then ms == [] else
      var n, k := |calls| - 1, |ms| - 1;
      || ((calls[n].Create? ==> MakesNothing(calls[n], Inserted(ms))) && Accounted(calls[..n], ms))
      || (&& ms != [] && MadeBy(ms[k], calls[n], calls[..n])
          && !HasBatch(Inserted(ms[..k]), calls[n].window.batchId) && Accounted(calls[..n], ms[..k]))
  }

  lemma {:induction false} OneLineMore(t: LineGraph.LineTable, ops: seq<LineGraph.LineOp>, op: LineGraph.LineOp)
    ensures LineGraph.ApplyLines(t, ops + [op]) == LineGraph.ApplyLine(LineGraph.ApplyLines(t, ops), op)
    decreases |ops|
  {
    hide LineGraph.ApplyLine;
    if ops == [] {
      assert ops + [op] == [op] && [op][1..] == [];
    } else {
      OneLineMore(LineGraph.ApplyLine(t, ops[0]), ops[1..], op);
      assert (ops + [op])[1..] == ops[1..] + [op];
    }
  }

  /** What is true between two calls. */
  ghost predicate Served(server: NodeServer, calls: seq<Call>, ms: seq<Made>, q: Q.QueueState)
    reads server, server.canvas, server.uuids, server.queue
  {
    && server.uuids.Valid() && server.canvas.lines == LineGraph.ApplyLines(map[], OpsOf(calls)) && Accounted(calls, ms)
    && Legal(ms) && (forall i :: 0 <= i < |ms| ==> IdsOf(ms[i].c.b.list) <= server.uuids.issued)
    && server.instances == Inserted(ms) && server.queue.State() == QueueAfter(q, ms)
  }

  lemma OneMadeMore(ms: seq<Made>, m: Made, taken: set<Id>, issued: set<Id>, q: Q.QueueState)
    requires Legal(ms) && forall i :: 0 <= i < |ms| ==> IdsOf(ms[i].c.b.list) <= taken
    requires CreatedFrom(LineGraph.ApplyLines(map[], m.c.ops), m.c.b, m.c.batchId) && (m.queued ==> HasRoot(m.c.b))
    requires taken <= issued && IdsOf(m.c.b.list) <= issued - taken
    ensures Legal(ms + [m]) && forall i :: 0 <= i < |ms + [m]| ==> IdsOf((ms + [m])[i].c.b.list) <= issued
    ensures Inserted(ms + [m]) == Inserted(ms) + if m.stored then Table(m.c.b.list) else map[]
    ensures QueueAfter(q, ms + [m]) == if m.queued then Q.Apply(QueueAfter(q, ms), MessageOf(m)) else QueueAfter(q, ms)
  {
    hide CreatedFrom, IdsOf, Table, Q.Apply, MessageOf;
    var all := ms + [m];
    assert all[..|all| - 1] == ms && all[|all| - 1] == m;
    assert Creations(all) == Creations(ms) + [m.c];
    assert forall c :: c in Creations(all) <==> c in Creations(ms) || c == m.c;
  }

  /** Any calls, one after the other: what is stored and queued afterwards comes from the
      batches that they made, and the protocol reaches it by a run. */
  method Serve(server: NodeServer, calls: seq<Call>) returns (ghost ms: seq<Made>, ghost acts: seq<Action>)
    requires server.uuids.Valid() && server.canvas.lines == map[] && server.instances == map[]
    requires forall c :: c in calls && c.Create? ==> c.cron.Valid()
    modifies server`instances, server`lines, server.canvas, server.uuids, server.queue
    ensures Accounted(calls, ms) && server.canvas.lines == LineGraph.ApplyLines(map[], OpsOf(calls))
    ensures Legal(ms) && server.instances == Inserted(ms)
    ensures server.queue.State() == QueueAfter(old(server.queue.State()), ms)
    ensures old(Empty(server.queue.State())) ==>
              var cs, t := Creations(ms), After(ms, old(server.queue.State()), |ms|);
              && IsRun(BatchLinks(cs), Start(cs, old(server.queue.State())), acts, t)
              && t.q == server.queue.State() && t.instances == server.instances
  {
    hide Cron.Valid, Legal, Inserted, QueueAfter, Served, Empty, IsRun, BatchLinks, Creations, QueuedIds, Roots, OpsOf,
         Accounted, LineGraph.ApplyLines;
    ghost var q := server.queue.State();
    ms := [];
    NothingServed(server, q);
    assert calls[..0] == [];
    for i := 0 to |calls|
      invariant Served(server, calls[..i], ms, q)
    {
      ms := ServeOne(server, calls[..i], calls[i], ms, q);
      assert calls[..i + 1] == calls[..i] + [calls[i]];
    }
    assert calls[..|calls|] == calls;
    ServedMeans(server, calls, ms, q);
    acts := [];
    if Empty(q) {
      acts := CallsAreRun(ms, q, |ms|);
      assert ms[..|ms|] == ms;
    }
  }

  lemma NothingServed(server: NodeServer, q: Q.QueueState)
    requires server.uuids.Valid() && server.canvas.lines == map[] && server.instances == map[]
    requires q == server.queue.State()
    ensures Served(server, [], [], q)
  {
  }

  lemma ServedMeans(server: NodeServer, calls: seq<Call>, ms: seq<Made>, q: Q.QueueState)
    requires Served(server, calls, ms, q)
    ensures Accounted(calls, ms) && server.canvas.lines == LineGraph.ApplyLines(map[], OpsOf(calls))
    ensures Legal(ms) && server.instances == Inserted(ms) && server.queue.State() == QueueAfter(q, ms)
  {
    hide Accounted, Legal, OpsOf;
  }

  method ServeOne(server: NodeServer, ghost done: seq<Call>, call: Call, ghost ms0: seq<Made>, ghost q: Q.QueueState)
    returns (ghost ms: seq<Made>)
    requires Served(server, done, ms0, q) && (call.Create? ==> call.cron.Valid())
    modifies server`instances, server`lines, server.canvas, server.uuids, server.queue
    ensures Served(server, done + [call], ms, q)
  {
    hide Cron.Valid, Legal, Inserted, QueueAfter, LineGraph.ApplyLine, LineGraph.ApplyLines, Q.Apply, Table, IdsOf,
         OpsOf, Accounted;
    ms := ms0;
    OneCallMore(done, call, ms0);
    match call {
      case Save(line, listOk, storeOk) =>
        var err := server.canvas.SaveLine(line, listOk, storeOk);
        OneLineMore(map[], OpsOf(done), LineGraph.Save(line, listOk && storeOk));
      case Delete(id, storeOk) =>
        var err := server.canvas.DeleteLine(id, storeOk);
        OneLineMore(map[], OpsOf(done), LineGraph.Delete(id, storeOk));
      case Create(nodeId, window, cron, nodes, outcome, drift) =>
        ms := ServeCreate(server, nodeId, window, cron, nodes, outcome, drift, done, ms0, q);
    }
  }

  lemma OneCallMore(done: seq<Call>, call: Call, ms: seq<Made>)
    ensures OpsOf(done + [call]) == OpsOf(done) + match call
                                                  case Save(line, listOk, storeOk) =>
                                                    [LineGraph.Save(line, listOk && storeOk)]
                                                  case Delete(id, storeOk) => [LineGraph.Delete(id, storeOk)]
                                                  case Create(_, _, _, _, _, _) => []
    ensures call.Create? ==> OpsOf(done + [call]) == OpsOf(done)
    ensures Accounted(done, ms) && (call.Create? ==> MakesNothing(call, Inserted(ms))) ==> Accounted(done + [call], ms)
  {
    hide MakesNothing, MadeBy, Inserted, HasBatch;
    assert (done + [call])[..|done|] == done;
  }

  lemma OneAccountedMore(done: seq<Call>, call: Call, ms: seq<Made>, m: Made)
    requires Accounted(done, ms) && MadeBy(m, call, done) && !HasBatch(Inserted(ms), call.window.batchId)
    ensures Accounted(done + [call], ms + [m])
  {
    hide MakesNothing, MadeBy, Inserted, HasBatch;
    assert (done + [call])[..|done|] == done && (ms + [m])[..|ms|] == ms;
  }

  method ServeCreate(server: NodeServer, nodeId: Id, window: Window, cron: Cron, nodes: Option<seq<Node>>,
                     outcome: Outcome, drift: nat, ghost done: seq<Call>, ghost ms0: seq<Made>,
                     ghost q: Q.QueueState)
    returns (ghost ms: seq<Made>)
    requires Served(server, done, ms0, q) && cron.Valid()
    modifies server`instances, server`lines, server.uuids, server.queue
    ensures Served(server, done + [Create(nodeId, window, cron, nodes, outcome, drift)], ms, q)
  {
    hide Cron.Valid, Legal, Inserted, QueueAfter, LineGraph.ApplyLines, Q.Apply, Table, IdsOf, HasBatch, RootMessage,
         CreatedFrom, NodeServer.Written, NodeServer.AllParse, NodeServer.BatchNodes, OpsOf, Accounted, MadeBy,
         MakesNothing, NodeIds;
    ghost var taken, call := server.uuids.issued, Create(nodeId, window, cron, nodes, outcome, drift);
    PassesOrMakesNothing(server, call);
    var err;
    ghost var made;
    err, made := server.InstanceCreate(nodeId, window, cron, nodes, outcome, drift);
    ms := ms0;
    OneCallMore(done, call, ms0);
    if made.Some? {
      ghost var m := Made(Creation(OpsOf(done), window.batchId, made.value), outcome.commitOk, err == None, drift);
      WrittenIsCreated(server, made.value, nodeId, window, cron, nodes);
      server.NodesWritten(made, nodeId, window, cron, nodes);
      OneMadeMore(ms0, m, taken, server.uuids.issued, q);
      CallMade(m, call, done);
      OneAccountedMore(done, call, ms0, m);
      ms := ms0 + [m];
    }
  }

  lemma CallMade(m: Made, call: Call, done: seq<Call>)
    requires call.Create? && call.nodes.Some? && call.outcome.existsOk && call.outcome.linesOk && call.outcome.writeOk
    requires m.c.ops == OpsOf(done) && m.c.batchId == call.window.batchId && m.drift == call.drift
    requires m.c.b.root == if call.nodeId in NodeIds(call.nodes.value) then call.nodeId else Id("")
    requires (m.stored <==> call.outcome.commitOk) && (m.queued <==> call.outcome.publishOk && HasRoot(m.c.b))
    ensures MadeBy(m, call, done)
  {
  }

  lemma PassesOrMakesNothing(server: NodeServer, call: Call)
    requires call.Create?
    ensures server.Passes(call.nodeId, call.window.batchId, call.cron, call.nodes, call.outcome) ==>
              && call.outcome.existsOk && call.outcome.linesOk && call.nodes.Some? && call.outcome.writeOk
              && !HasBatch(server.instances, call.window.batchId)
    ensures server.Passes(call.nodeId, call.window.batchId, call.cron, call.nodes, call.outcome)
            || MakesNothing(call, server.instances)
  {
    hide HasBatch;
  }

  // ---- the calls as a run of the protocol ----

  /** The id belongs to a batch that is stored. */
  ghost predicate Keeps(ms: seq<Made>, x: Id) {
    exists i :: 0 <= i < |ms| && ms[i].stored && x in IdsOf(ms[i].c.b.list)
  }

  lemma LegalPrefix(ms: seq<Made>, k: nat)
    requires Legal(ms) && k <= |ms|
    ensures Legal(ms[..k])
  {
    hide CreatedFrom, IdsOf;
    var less, all := Creations(ms[..k]), Creations(ms);
    assert forall i :: 0 <= i < k ==> less[i] == all[i];
    forall c | c in less
      ensures c in all
    {
      var i :| 0 <= i < k && less[i] == c;
      assert all[i] == c;
    }
  }

  lemma LegalAt(ms: seq<Made>, i: nat)
    requires Legal(ms) && i < |ms|
    ensures ms[i].c in Creations(ms)
    ensures CreatedFrom(LineGraph.ApplyLines(map[], ms[i].c.ops), ms[i].c.b, ms[i].c.batchId)
  {
    hide CreatedFrom;
    assert Creations(ms)[i] == ms[i].c;
  }

  lemma OneBatchOnly(ms: seq<Made>, i: nat, j: nat, x: Id)
    requires Legal(ms) && i < |ms| && j < |ms| && x in IdsOf(ms[i].c.b.list) && x in IdsOf(ms[j].c.b.list)
    ensures i == j
  {
    hide CreatedFrom, IdsOf;
    assert Creations(ms)[i] == ms[i].c && Creations(ms)[j] == ms[j].c;
  }

  lemma {:induction false} KeptAreStored(ms: seq<Made>)
    requires Legal(ms)
    ensures forall x :: x in Inserted(ms) <==> Keeps(ms, x)
    decreases |ms|
  {
    if ms != [] {
      hide CreatedFrom, IdsOf, Legal, Table;
      var n := |ms| - 1;
      LegalPrefix(ms, n);
      KeptAreStored(ms[..n]);
      LegalAt(ms, n);
      NewRows(ms[n].c);
      forall x
        ensures Keeps(ms, x) <==> Keeps(ms[..n], x) || (ms[n].stored && x in IdsOf(ms[n].c.b.list))
      {
        KeepsOneMore(ms, x);
      }
    }
  }

  lemma KeepsOneMore(ms: seq<Made>, x: Id)
    requires ms != []
    ensures var n := |ms| - 1; Keeps(ms, x) <==> Keeps(ms[..n], x) || (ms[n].stored && x in IdsOf(ms[n].c.b.list))
  {
    hide IdsOf;
    var n := |ms| - 1;
    if Keeps(ms[..n], x) {
      var i :| 0 <= i < n && ms[..n][i].stored && x in IdsOf(ms[..n][i].c.b.list);
      assert ms[i].stored;
    }
    if i :| 0 <= i < n && ms[i].stored && x in IdsOf(ms[i].c.b.list) {
      assert ms[..n][i].stored;
    }
  }

  /** Both ends of a link are stored, or none. */
  lemma KeptTogether(ms: seq<Made>, k: nat)
    requires Legal(ms) && k <= |ms|
    ensures LinesKnown(BatchLinks(Creations(ms)), Inserted(ms[..k]))
  {
    hide CreatedFrom, IdsOf, Legal, Inserted, LinkEdges, Keeps;
    LegalPrefix(ms, k);
    KeptAreStored(ms[..k]);
    forall e | e in BatchLinks(Creations(ms))
      ensures e.0 in Inserted(ms[..k]) <==> e.1 in Inserted(ms[..k])
    {
      LinksMember(Creations(ms), e);
      var c :| c in Creations(ms) && e in LinkEdges(c.b.lines);
      var j :| 0 <= j < |ms| && Creations(ms)[j] == c;
      LegalAt(ms, j);
      EndsListed(c);
      EdgeEnds(LinkEdges(c.b.lines), e.0, e.1);
      KeptWithBatch(ms, k, j, e.0);
      KeptWithBatch(ms, k, j, e.1);
    }
  }

  lemma KeptWithBatch(ms: seq<Made>, k: nat, j: nat, x: Id)
    requires Legal(ms) && k <= |ms| && j < |ms| && x in IdsOf(ms[j].c.b.list)
    ensures Keeps(ms[..k], x) <==> j < k && ms[j].stored
  {
    hide CreatedFrom, IdsOf, Legal;
    if i :| 0 <= i < k && ms[..k][i].stored && x in IdsOf(ms[..k][i].c.b.list) {
      OneBatchOnly(ms, i, j, x);
    }
    if j < k && ms[j].stored {
      assert ms[..k][j].stored;
    }
  }

  /** Every message names the root of a batch made before. */
  lemma {:induction false} MessagesAreRoots(q: Q.QueueState, ms: seq<Made>, id: nat)
    requires Legal(ms) && q.queue == map[] && id in QueueAfter(q, ms).queue
    ensures QueueAfter(q, ms).queue[id].payload in QueuedIds(ms)
    decreases |ms|
  {
    if ms != [] {
      hide CreatedFrom, Legal;
      var n := |ms| - 1;
      LegalPrefix(ms, n);
      QueuedOneMore(ms);
      var before := QueueAfter(q, ms[..n]);
      if id in before.queue && !(ms[n].queued && HasRoot(ms[n].c.b) && id == before.nextId) {
        MessagesAreRoots(q, ms[..n], id);
      }
    }
  }

  lemma QueuedOneMore(ms: seq<Made>)
    requires ms != []
    ensures var last := ms[|ms| - 1];
            QueuedIds(ms) == QueuedIds(ms[..|ms| - 1])
                             + if last.queued && HasRoot(last.c.b) then {FirstId(last.c.b)} else {}
  {
    var n := |ms| - 1;
    assert ms == ms[..n] + [ms[n]];
    assert forall m :: m in ms <==> m in ms[..n] || m == ms[n];
  }

  lemma QueuedIdIsListed(ms: seq<Made>, x: Id) returns (i: nat)
    requires Legal(ms) && x in QueuedIds(ms)
    ensures i < |ms| && x in IdsOf(ms[i].c.b.list)
  {
    hide CreatedFrom, IdsOf;
    var m :| m in ms && m.queued && HasRoot(m.c.b) && x == FirstId(m.c.b);
    i :| 0 <= i < |ms| && ms[i] == m;
    LegalAt(ms, i);
    RootListed(m.c);
  }

  /** The protocol's state after the first k calls that made a batch. */
  ghost function After(ms: seq<Made>, q: Q.QueueState, k: nat): State
    requires k <= |ms|
  {
    State(QueueAfter(q, ms[..k]), Inserted(ms[..k]), map[], Roots(Creations(ms)) - QueuedIds(ms[..k]))
  }

  lemma Fits(ms: seq<Made>, q: Q.QueueState, k: nat)
    requires Legal(ms) && k < |ms| && q.queue == map[] && ms[k].stored
    ensures Insertable(BatchLinks(Creations(ms)), After(ms, q, k), Table(ms[k].c.b.list))
  {
    hide CreatedFrom, IdsOf, Legal, Inserted, BatchLinks, Table, QueueAfter, QueuedIds, LinesKnown, Keeps;
    var table := Table(ms[k].c.b.list);
    assert ms[..k + 1][..k] == ms[..k];
    LegalPrefix(ms, k);
    LegalPrefix(ms, k + 1);
    LegalAt(ms, k);
    NewRows(ms[k].c);
    KeptAreStored(ms[..k]);
    KeptTogether(ms, k + 1);
    InsertedNext(ms, k);
    forall x | x in table
      ensures x !in Inserted(ms[..k])
    {
      KeptWithBatch(ms, k, k, x);
    }
    forall id | id in QueueAfter(q, ms[..k]).queue
      ensures QueueAfter(q, ms[..k]).queue[id].payload !in table
    {
      MessagesAreRoots(q, ms[..k], id);
      var i := QueuedIdIsListed(ms[..k], QueueAfter(q, ms[..k]).queue[id].payload);
      if QueueAfter(q, ms[..k]).queue[id].payload in table {
        OneBatchOnly(ms, i, k, QueueAfter(q, ms[..k]).queue[id].payload);
      }
    }
  }

  lemma InsertedNext(ms: seq<Made>, k: nat)
    requires k < |ms|
    ensures Inserted(ms[..k + 1]) == Inserted(ms[..k]) + if ms[k].stored then Table(ms[k].c.b.list) else map[]
    ensures !ms[k].stored ==> Inserted(ms[..k + 1]) == Inserted(ms[..k])
  {
    hide Table;
    assert ms[..k + 1][..k] == ms[..k];
  }

  lemma RootWaits(ms: seq<Made>, k: nat)
    requires Legal(ms) && k < |ms| && HasRoot(ms[k].c.b)
    ensures FirstId(ms[k].c.b) in Roots(Creations(ms)) - QueuedIds(ms[..k])
  {
    hide CreatedFrom, IdsOf, Legal, QueuedIds;
    LegalAt(ms, k);
    LegalPrefix(ms, k);
    var x := FirstId(ms[k].c.b);
    RootListed(ms[k].c);
    if x in QueuedIds(ms[..k]) {
      var i := QueuedIdIsListed(ms[..k], x);
      OneBatchOnly(ms, i, k, x);
    }
  }

  /** Whatever was called, the protocol gets there from nothing stored and nothing queued: it
      inserts the stored batches and queues the queued roots, in order. */
  lemma {:induction false} CallsAreRun(ms: seq<Made>, q: Q.QueueState, k: nat) returns (acts: seq<Action>)
    requires Legal(ms) && Empty(q) && k <= |ms|
    ensures IsRun(BatchLinks(Creations(ms)), Start(Creations(ms), q), acts, After(ms, q, k))
    decreases k
  {
    hide Legal, BatchLinks, Inserted, QueueAfter, QueuedIds, Enabled, Apply, Roots, Creations;
    var E, s := BatchLinks(Creations(ms)), Start(Creations(ms), q);
    if k == 0 {
      acts := [];
      NothingAfter(ms, q);
      NoAction(E, s);
    } else {
      acts := CallsAreRun(ms, q, k - 1);
      var m := After(ms, q, k - 1);
      InsertedNext(ms, k - 1);
      if ms[k - 1].stored {
        var a := Insert(Table(ms[k - 1].c.b.list));
        InsertHere(ms, q, k - 1);
        Extend(E, s, acts, m, a);
        acts, m := acts + [a], Apply(E, m, a);
      }
      if ms[k - 1].queued {
        var b := ms[k - 1].c.b;
        LegalHasRoot(ms, k - 1);
        var a := QueueRoot(FirstId(b), b.root, b.view[b.root].instances[0].executeTime + ms[k - 1].drift);
        QueueHere(ms, q, k - 1, m, a);
        Extend(E, s, acts, m, a);
        acts, m := acts + [a], Apply(E, m, a);
      }
      AfterNext(ms, q, k - 1, m);
    }
  }

  lemma NothingAfter(ms: seq<Made>, q: Q.QueueState)
    ensures After(ms, q, 0) == Start(Creations(ms), q)
  {
    assert ms[..0] == [];
    assert QueuedIds([]) == {};
  }

  lemma LegalHasRoot(ms: seq<Made>, k: nat)
    requires Legal(ms) && k < |ms| && ms[k].queued
    ensures HasRoot(ms[k].c.b)
  {
    hide Created;
  }

  lemma InsertHere(ms: seq<Made>, q: Q.QueueState, k: nat)
    requires Legal(ms) && k < |ms| && Empty(q) && ms[k].stored
    ensures var E, a := BatchLinks(Creations(ms)), Insert(Table(ms[k].c.b.list));
            && Enabled(E, After(ms, q, k), a)
            && Apply(E, After(ms, q, k), a) == After(ms, q, k).(instances := Inserted(ms[..k + 1]))
  {
    hide Legal, BatchLinks, Inserted, QueueAfter, QueuedIds, Table, Insertable, Roots;
    Fits(ms, q, k);
    InsertedNext(ms, k);
  }

  lemma QueueHere(ms: seq<Made>, q: Q.QueueState, k: nat, m: State, a: Action)
    requires Legal(ms) && k < |ms| && ms[k].queued && HasRoot(ms[k].c.b)
    requires m == After(ms, q, k).(instances := Inserted(ms[..k + 1]))
    requires var b := ms[k].c.b;
             a == QueueRoot(FirstId(b), b.root, b.view[b.root].instances[0].executeTime + ms[k].drift)
    ensures var E := BatchLinks(Creations(ms));
            && Enabled(E, m, a)
            && Apply(E, m, a) == m.(q := Q.Apply(m.q, MessageOf(ms[k])), waiting := m.waiting - {FirstId(ms[k].c.b)})
  {
    hide Legal, BatchLinks, Inserted, QueueAfter, QueuedIds, Table, Roots;
    RootWaits(ms, k);
  }

  lemma AfterNext(ms: seq<Made>, q: Q.QueueState, k: nat, m: State)
    requires Legal(ms) && k < |ms| && (ms[k].queued ==> HasRoot(ms[k].c.b))
    requires m == var s := After(ms, q, k).(instances := Inserted(ms[..k + 1]));
                  if ms[k].queued
                  then s.(q := Q.Apply(s.q, MessageOf(ms[k])), waiting := s.waiting - {FirstId(ms[k].c.b)})
                  else s
    ensures m == After(ms, q, k + 1)
  {
    hide Legal, Inserted, Roots, Q.Apply;
    assert ms[..k + 1][..k] == ms[..k];
    QueuedOneMore(ms[..k + 1]);
  }
}
