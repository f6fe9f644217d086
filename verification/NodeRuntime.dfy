/** internal/workflow/node_runtime.go as one worker runs it: the handler and the drain loop
    are runs of the protocol in which the other workers stand still. */
module NodeRuntime {
  import opened Common
  import opened Digraph
  import opened InstanceLinks
  import opened WorkflowProtocol
  import opened WorkflowSafety
  import opened WorkflowTermination
  import Adjacency
  import Q = DelayQueue

  // ---- getAlreadyInfo ----

  datatype Agg = Agg(executeTime: int, total: nat, success: nat)

  ghost function CountFor(rows: seq<Row>, d: Id, onlySuccess: bool): nat
    decreases |rows|
  {
    if rows == [] then 0 else
      var r := rows[|rows| - 1];
      CountFor(rows[..|rows| - 1], d, onlySuccess) +
      if r.downstream == d && (onlySuccess ==> r.upstreamStatus == Success) then 1 else 0
  }

  lemma CountForTake(rows: seq<Row>, i: nat, d: Id, onlySuccess: bool)
    requires i < |rows|
    ensures CountFor(rows[..i + 1], d, onlySuccess) ==
            CountFor(rows[..i], d, onlySuccess) +
            if rows[i].downstream == d && (onlySuccess ==> rows[i].upstreamStatus == Success) then 1 else 0
  {
    assert rows[..i + 1][..i] == rows[..i];
  }

  lemma {:induction false} FirstTimeTake(rows: seq<Row>, i: nat, d: Id)
    requires i < |rows|
    ensures FirstTime(rows[..i + 1], d) ==
            if d in Downstreams(rows[..i]) then FirstTime(rows[..i], d)
            else if rows[i].downstream == d then rows[i].executeTime else 0
    decreases i
  {
    var more, less := rows[..i + 1], rows[..i];
    if i == 0 {
      assert more[1..] == [];
    } else {
      assert more[0] == rows[0] == less[0];
      assert more[1..] == rows[1..][..i] && less[1..] == rows[1..][..i - 1];
      FirstTimeTake(rows[1..], i - 1, d);
      assert less == [less[0]] + less[1..];
      assert d in Downstreams(less) <==> d == less[0].downstream || d in Downstreams(less[1..]);
    }
  }

  lemma DownstreamsTake(rows: seq<Row>, i: nat)
    requires i < |rows|
    ensures Downstreams(rows[..i + 1]) == Downstreams(rows[..i]) + {rows[i].downstream}
  {
    assert rows[..i + 1] == rows[..i] + [rows[i]];
    assert forall r :: r in rows[..i + 1] <==> r in rows[..i] || r == rows[i];
  }

  lemma AllSucceededTake(rows: seq<Row>, i: nat, d: Id)
    requires i < |rows|
    ensures AllSucceeded(rows[..i + 1], d) <==>
            AllSucceeded(rows[..i], d) && (rows[i].downstream == d ==> rows[i].upstreamStatus == Success)
  {
    assert rows[..i + 1] == rows[..i] + [rows[i]];
    assert forall r :: r in rows[..i + 1] <==> r in rows[..i] || r == rows[i];
  }

  lemma {:induction false} CountsDecide(rows: seq<Row>, d: Id)
    ensures CountFor(rows, d, true) <= CountFor(rows, d, false)
    ensures CountFor(rows, d, true) == CountFor(rows, d, false) <==> AllSucceeded(rows, d)
    ensures CountFor(rows, d, false) > 0 <==> d in Downstreams(rows)
    decreases |rows|
  {
    if rows != [] {
      hide AllSucceeded, Downstreams;
      var n := |rows| - 1;
      CountsDecide(rows[..n], d);
      assert rows[..n + 1] == rows;
      DownstreamsTake(rows, n);
      AllSucceededTake(rows, n, d);
    }
  }

  ghost predicate Aggregates(rows: seq<Row>, agg: map<Id, Agg>) {
    && agg.Keys == Downstreams(rows)
    && forall d :: d in agg ==> agg[d] == Agg(FirstTime(rows, d), CountFor(rows, d, false), CountFor(rows, d, true))
  }

  lemma AggregateOne(rows: seq<Row>, i: nat, agg: map<Id, Agg>)
    requires i < |rows| && Aggregates(rows[..i], agg)
    ensures var d, won := rows[i].downstream, if rows[i].upstreamStatus == Success then 1 else 0;
            var a := if d in agg then agg[d] else Agg(rows[i].executeTime, 0, 0);
            Aggregates(rows[..i + 1], agg[d := Agg(a.executeTime, a.total + 1, a.success + won)])
  {
    hide CountFor, FirstTime, Downstreams;
    DownstreamsTake(rows, i);
    forall d | d in Downstreams(rows[..i + 1])
      ensures FirstTime(rows[..i + 1], d) == if d in agg then FirstTime(rows[..i], d) else rows[i].executeTime
      ensures forall b :: CountFor(rows[..i + 1], d, b) ==
                          CountFor(rows[..i], d, b) +
                          if rows[i].downstream == d && (b ==> rows[i].upstreamStatus == Success) then 1 else 0
      ensures d !in agg ==> CountFor(rows[..i], d, false) == 0 && CountFor(rows[..i], d, true) == 0
    {
      FirstTimeTake(rows, i, d);
      CountForTake(rows, i, d, true);
      CountForTake(rows, i, d, false);
      CountsDecide(rows[..i], d);
    }
  }

  /** The downstreams all of whose listed upstreams succeeded, with the time of the first row. */
  method GetAlreadyInfo(rows: seq<Row>) returns (ready: map<Id, int>)
    ensures ready == Ready(rows)
    ensures IsReady(rows, ready)
  {
    hide Aggregates, AllSucceeded;
    var agg: map<Id, Agg> := map[];
    NothingAggregated();
    assert rows[..0] == [];
    for i := 0 to |rows|
      invariant Aggregates(rows[..i], agg)
    {
      AggregateOne(rows, i, agg);
      var r := rows[i];
      var a := if r.downstream in agg then agg[r.downstream] else Agg(r.executeTime, 0, 0);
      var won := if r.upstreamStatus == Success then 1 else 0;
      agg := agg[r.downstream := Agg(a.executeTime, a.total + 1, a.success + won)];
    }
    assert rows[..|rows|] == rows;
    AggregatesGiveReady(rows, agg);
    ReadyMeans(rows);
    ready := map d | d in agg && agg[d].total > 0 && agg[d].total == agg[d].success :: agg[d].executeTime;
  }

  /** The time of the first row of this downstream. */
  ghost predicate IsFirstTime(rows: seq<Row>, d: Id, time: int) {
    exists i :: 0 <= i < |rows| && rows[i].downstream == d && rows[i].executeTime == time
                && forall j :: 0 <= j < i ==> rows[j].downstream != d
  }

  lemma {:induction false} FirstTimeIs(rows: seq<Row>, d: Id) returns (i: nat)
    requires d in Downstreams(rows)
    ensures i < |rows| && rows[i].downstream == d && rows[i].executeTime == FirstTime(rows, d)
    ensures forall j :: 0 <= j < i ==> rows[j].downstream != d
    decreases |rows|
  {
    if rows[0].downstream == d {
      i := 0;
    } else {
      var r :| r in rows && r.downstream == d;
      assert r in rows[1..];
      var k := FirstTimeIs(rows[1..], d);
      i := k + 1;
      assert forall j :: 0 < j < i ==> rows[j] == rows[1..][j - 1];
    }
  }

  /** The listed downstreams all of whose rows say Success, with the time of the first row. */
  ghost predicate IsReady(rows: seq<Row>, ready: map<Id, int>) {
    && (forall d :: d in ready <==>
                      && (exists r :: r in rows && r.downstream == d)
                      && forall r :: r in rows && r.downstream == d ==> r.upstreamStatus == Success)
    && forall d :: d in ready ==> IsFirstTime(rows, d, ready[d])
  }

  lemma ReadyMeans(rows: seq<Row>)
    ensures IsReady(rows, Ready(rows))
  {
    hide FirstTime;
    forall d | d in Ready(rows)
      ensures IsFirstTime(rows, d, Ready(rows)[d])
    {
      var i := FirstTimeIs(rows, d);
    }
  }

  /** A downstream is released for the time of one of its upstream instances. */
  lemma ReadyAtUpstreamTime(E: set<Edge>, inst: Instances, x: Id, rows: seq<Row>, d: Id)
    requires IsRows(E, inst, x, rows) && d in Ready(rows)
    ensures exists u :: u in inst && (u, d) in E && Ready(rows)[d] == inst[u].executeTime
  {
    hide FirstTime, AllSucceeded;
    var i := FirstTimeIs(rows, d);
    assert rows[i] in rows;
    assert (rows[i].upstream, d) in E;
  }

  lemma NothingAggregated()
    ensures Aggregates([], map[])
  {
  }

  lemma AggregatesGiveReady(rows: seq<Row>, agg: map<Id, Agg>)
    requires Aggregates(rows, agg)
    ensures Ready(rows) ==
            map d | d in agg && agg[d].total > 0 && agg[d].total == agg[d].success :: agg[d].executeTime
  {
    hide AllSucceeded, CountFor, FirstTime, Downstreams;
    forall d | d in agg
      ensures agg[d].total > 0 && (agg[d].total == agg[d].success <==> AllSucceeded(rows, d))
    {
      CountsDecide(rows, d);
    }
  }

  // ---- one worker's code ----

  lemma OthersMean(inst: Instances, x: Id)
    ensures |RunningOthers(inst, x)| > 0 <==>
            x in inst && exists t :: t in inst && t != x && inst[t].nodeId == inst[x].nodeId
                                     && (inst[t].status == Waiting || inst[t].status == Running)
  {
    var others := RunningOthers(inst, x);
    if t :| x in inst && t in inst && t != x && inst[t].nodeId == inst[x].nodeId
            && (inst[t].status == Waiting || inst[t].status == Running) {
      assert t in others;
    }
    if others != {} {
      var t :| t in others;
    }
  }

  /** Which database operations of one handler call fail; `publish` counts the publishes. */
  datatype Faults = Faults(count: bool, lostAbort: bool, load: bool, write: bool, query: bool, publish: Option<nat>)

  ghost predicate PublishFails(f: Faults, ready: map<Id, int>) {
    f.publish.Some? && f.publish.value < |ready|
  }

  ghost predicate FinishOk(f: Faults, ready: map<Id, int>) {
    !f.write && !f.query && !PublishFails(f, ready)
  }

  /** The handler's answer: nil when it is called off or everything works. */
  ghost predicate HandlerOk(f: Faults, inst: Instances, x: Id, ready: map<Id, int>) {
    !f.count && (RunningOthers(inst, x) != {} || (!f.load && x in inst && FinishOk(f, ready)))
  }

  /** The query for the next instances is made: nothing failed before it and nobody called
      the instance off. */
  ghost predicate Queried(f: Faults, inst: Instances, x: Id) {
    !f.count && RunningOthers(inst, x) == {} && !f.load && x in inst && !f.write && !f.query
  }

  ghost function InstancesAfter(f: Faults, inst: Instances, x: Id): Instances {
    if f.count then inst
    else if RunningOthers(inst, x) != {} then (if f.lostAbort then inst else WithStatus(inst, x, Abort))
    else if f.load || x !in inst || f.write then inst
    else WithStatus(inst, x, Success)
  }

  /** What one handler call leaves in the store, and which downstreams it finds ready. */
  ghost predicate Ran(E: set<Edge>, f: Faults, inst: Instances, after: Instances, x: Id, ready: map<Id, int>) {
    && after == InstancesAfter(f, inst, x)
    && if Queried(f, inst, x) then IsReadySet(E, after, x, ready) else ready == map[]
  }

  /** The ready downstreams that get their message: all of them, or as many as there are
      before the publish that fails. */
  ghost predicate Chosen(ready: map<Id, int>, failAt: Option<nat>, sent: map<Id, int>) {
    && (forall d :: d in sent ==> d in ready && sent[d] == ready[d])
    && |sent| == if failAt.Some? && failAt.value < |ready| then failAt.value else |ready|
  }

  lemma ChosenNothing(failAt: Option<nat>)
    ensures Chosen(map[], failAt, map[])
  {
  }

  lemma AllChosen(ready: map<Id, int>, failAt: Option<nat>, sent: map<Id, int>)
    requires Chosen(ready, failAt, sent) && !(failAt.Some? && failAt.value < |ready|)
    ensures sent == ready
  {
    if sent.Keys != ready.Keys {
      assert sent.Keys < ready.Keys;
      Adjacency.SmallerSet(sent.Keys, ready.Keys);
    }
  }

  /** The world around one round of the drain loop: the rows locked by others, which updates
      get lost, what fails in the handler, and how long it takes. */
  datatype Round = Round(locked: set<nat>, lookupLost: bool, faults: Faults, elapsed: nat, settleLost: bool)

  /** The downstreams that TryNextRows and getAlreadyInfo release after x. */
  ghost predicate IsReadySet(E: set<Edge>, inst: Instances, x: Id, ready: map<Id, int>) {
    exists rows :: IsRows(E, inst, x, rows) && ready == Ready(rows)
  }

  /** A fresh message for d, due at `time` or at most `late` after it. */
  ghost predicate IsRelease(m: Q.DelayMessage, d: Id, time: int, late: int) {
    && m.payload == d && m.bizId == d && m.topic == TOPIC && m.status == Q.Pending
    && m.retryCount == 0 && m.maxRetry == MAX_RETRY && time <= m.executeTime <= time + late
  }

  /** The table gained exactly one message for every ready downstream. */
  ghost predicate Sent(before: Q.Queue, from: nat, after: Q.Queue, to: nat, ready: map<Id, int>, late: int) {
    && to == from + |ready|
    && (forall k :: k in before ==> k in after && after[k] == before[k])
    && (forall k :: k in after ==> k in before || from <= k < to)
    && forall d :: d in ready ==> Queued(after, from, to, d, ready[d], late)
  }

  ghost predicate Queued(q: Q.Queue, from: nat, to: nat, d: Id, time: int, late: int) {
    exists i :: from <= i < to && i in q && IsRelease(q[i], d, time, late)
  }

  lemma ReleaseRow(k: Id, time: int, drift: nat, late: int)
    requires drift <= late
    ensures IsRelease(Q.DelayMessage(k, TOPIC, time + drift, Q.Pending, k, 0, MAX_RETRY), k, time, late)
  {
  }

  lemma NothingSent(q: Q.Queue, n: nat, late: int)
    ensures Sent(q, n, q, n, map[], late)
  {
  }

  lemma SentMore(before: Q.Queue, from: nat, after: Q.Queue, to: nat, done: map<Id, int>, k: Id, time: int,
                 m: Q.DelayMessage, late: int)
    requires Sent(before, from, after, to, done, late) && k !in done && IsRelease(m, k, time, late) && to !in after
    ensures Sent(before, from, after[to := m], to + 1, done[k := time], late)
  {
    var more := done[k := time];
    assert |more| == |done| + 1;
    forall d | d in more
      ensures Queued(after[to := m], from, to + 1, d, more[d], late)
    {
      if d == k {
        assert IsRelease(after[to := m][to], d, more[d], late);
      } else {
        assert Queued(after, from, to, d, done[d], late);
        var i :| from <= i < to && i in after && IsRelease(after[i], d, done[d], late);
        assert IsRelease(after[to := m][i], d, more[d], late);
      }
    }
  }

  lemma SentByThen(before: Q.Queue, from: nat, after: Q.Queue, to: nat, sent: map<Id, int>, late: int, later: int)
    requires Sent(before, from, after, to, sent, late) && late <= later
    ensures Sent(before, from, after, to, sent, later)
  {
    forall d | d in sent
      ensures Queued(after, from, to, d, sent[d], later)
    {
      assert Queued(after, from, to, d, sent[d], late);
      var i :| from <= i < to && i in after && IsRelease(after[i], d, sent[d], late);
      assert IsRelease(after[i], d, sent[d], later);
    }
  }

  lemma SentBeside(before: Q.Queue, from: nat, after: Q.Queue, to: nat, sent: map<Id, int>, late: int, id: nat)
    requires Sent(before, from, after, to, sent, late) && id < from
    ensures Sent(before - {id}, from, after - {id}, to, sent, late)
    ensures id in before ==> id in after && after[id] == before[id]
  {
    forall d | d in sent
      ensures Queued(after - {id}, from, to, d, sent[d], late)
    {
      assert Queued(after, from, to, d, sent[d], late);
      var i :| from <= i < to && i in after && IsRelease(after[i], d, sent[d], late);
      assert IsRelease((after - {id})[i], d, sent[d], late);
    }
  }

  // ---- the row of the handled message ----

  ghost function AnsweredRow(q: Q.Queue, id: nat, msg: Q.DelayMessage, ok: bool, lost: bool, now: int): Q.DelayMessage
    requires id in q
  {
    if lost then q[id] else if ok then q[id].(status := Q.Success) else Q.AfterError(q, id, msg, now)[id]
  }

  ghost function SettledRow(q: Q.Queue, id: nat, msg: Q.DelayMessage, found: bool, ok: bool, r: Round, now: int)
    : Q.DelayMessage
    requires id in q
  {
    if found then AnsweredRow(q, id, msg, ok, r.settleLost, now)
    else if r.lookupLost then q[id]
    else q[id].(status := Q.Failed)
  }

  ghost predicate Halves(ready: map<Id, int>, done: map<Id, int>, todo: map<Id, int>) {
    done.Keys !! todo.Keys && ready == done + todo
  }

  lemma HalvesStart(ready: map<Id, int>)
    ensures Halves(ready, map[], ready)
  {
  }

  lemma HalvesMove(ready: map<Id, int>, done: map<Id, int>, todo: map<Id, int>, k: Id)
    requires Halves(ready, done, todo) && k in todo
    ensures k !in done && Halves(ready, done[k := todo[k]], todo - {k}) && |done[k := todo[k]]| == |done| + 1
  {
  }

  lemma OneFewer(todo: map<Id, int>, k: Id)
    requires k in todo
    ensures |todo - {k}| < |todo|
  {
    assert (todo - {k}).Keys == todo.Keys - {k};
    assert |todo| == |todo.Keys| && |todo - {k}| == |(todo - {k}).Keys|;
  }

  lemma HalvesSize(ready: map<Id, int>, done: map<Id, int>, todo: map<Id, int>)
    requires Halves(ready, done, todo) && todo != map[]
    ensures |done| < |ready|
  {
    assert todo.Keys != {};
    var k :| k in todo.Keys;
    assert k in ready && done.Keys < ready.Keys;
    Adjacency.SmallerSet(done.Keys, ready.Keys);
  }

  lemma AllDone(ready: map<Id, int>, done: map<Id, int>)
    requires Halves(ready, done, map[])
    ensures done == ready
  {
  }

  lemma CountEnabled(E: set<Edge>, s: State, w: nat)
    requires AtStep(s, w) && s.steps[w] == Counting
    ensures Enabled(E, s, Count(w))
    ensures Apply(E, s, Count(w)) ==
            Next(s, w, if RunningOthers(s.instances, PayloadOf(s, w)) != {} then Aborting else Loading)
  {
  }

  lemma FailEnabled(E: set<Edge>, s: State, w: nat)
    requires AtStep(s, w)
    ensures Enabled(E, s, Fail(w)) && Apply(E, s, Fail(w)) == Leave(s, w, false)
  {
  }

  lemma PublishEnabled(E: set<Edge>, s: State, w: nat, k: Id, drift: nat)
    requires AtStep(s, w) && s.steps[w].Publishing? && k in s.steps[w].todo
    ensures Enabled(E, s, Publish(w, k, drift))
  {
  }

  lemma Ticked(E: set<Edge>, s: State, elapsed: nat)
    ensures Enabled(E, s, Queue(Q.Tick(elapsed)))
    ensures Apply(E, s, Queue(Q.Tick(elapsed))) == s.(q := s.q.(now := s.q.now + elapsed))
  {
  }

  /** The handler with the store and the queue it works on. Every database operation may
      fail, which the code answers by returning the error. */
  class NodeRuntime {
    const consumer: Q.Consumer
    const lines: set<Edge>
    var instances: Instances
    ghost var steps: map<nat, Step>
    ghost var waiting: set<Id>

    constructor (consumer: Q.Consumer, lines: set<Edge>, instances: Instances, ghost steps: map<nat, Step>,
                 ghost waiting: set<Id>)
      ensures this.consumer == consumer && this.lines == lines
      ensures this.instances == instances && this.steps == steps && this.waiting == waiting
    {
      this.consumer, this.lines := consumer, lines;
      this.instances, this.steps, this.waiting := instances, steps, waiting;
    }

    ghost function Shot(): State
      reads this, consumer
    {
      State(consumer.State(), instances, steps, waiting)
    }

    /** The worker is inside the handler, about to do `step` for this message. */
    ghost predicate At(id: nat, msg: Q.DelayMessage, step: Step)
      reads this, consumer
    {
      consumer.Holding(id, msg, Q.Called) && consumer.me in steps && steps[consumer.me] == step
    }

    /** Row ids are handed out in ascending order. */
    ghost predicate IdsBelow()
      reads consumer
    {
      forall k :: k in consumer.queue ==> k < consumer.nextId
    }

    /** InstanceRunningCount: other waiting or running instances of the same node. */
    method RunningCount(x: Id) returns (count: nat)
      ensures count == |RunningOthers(instances, x)|
      ensures count > 0 <==>
                x in instances
                && exists t :: t in instances && t != x && instances[t].nodeId == instances[x].nodeId
                               && (instances[t].status == Waiting || instances[t].status == Running)
    {
      var others := set t | t in instances && x in instances && t != x && instances[t].nodeId == instances[x].nodeId
                            && (instances[t].status == Waiting || instances[t].status == Running);
      count := |others|;
      OthersMean(instances, x);
    }

    /** TryNextRows: one row per upstream of every downstream of x. */
    method TryNextRows(x: Id) returns (rows: seq<Row>)
      ensures IsRows(lines, instances, x, rows)
    {
      var pending := set e, f | e in lines && f in lines && e.0 == x && f.1 == e.1 && f.0 in instances
                       :: Row(e.1, f.0, instances[f.0].status, instances[f.0].executeTime);
      ghost var all := pending;
      rows := [];
      while pending != {}
        invariant pending <= all
        invariant forall r :: r in rows <==> r in all - pending
      {
        var r :| r in pending;
        rows := rows + [r];
        pending := pending - {r};
      }
      AllRowsAreRows(lines, instances, x);
      assert all == AllRows(lines, instances, x);
    }

    method UpdateInstance(x: Id, status: InstanceStatus)
      modifies this`instances
      ensures instances == WithStatus(old(instances), x, status)
      ensures instances - {x} == old(instances) - {x} && (x in instances <==> x in old(instances))
      ensures x in instances ==> instances[x] == old(instances)[x].(status := status)
    {
      if x in instances {
        instances := instances[x := instances[x].(status := status)];
      }
    }

    /** The handler body: from its first query to its return. The answer, the new statuses,
        the ready downstreams and the number of messages sent before a failing publish are
        determined by what fails. */
    method Deal(id: nat, msg: Q.DelayMessage, f: Faults)
      returns (ok: bool, ghost ready: map<Id, int>, ghost sent: map<Id, int>, ghost acts: seq<Action>)
      requires At(id, msg, Counting) && IdsBelow()
      modifies this`instances, this`steps, consumer
      ensures IsRun(lines, old(Shot()), acts, Shot())
      ensures consumer.Holding(id, msg, Q.Returned(ok)) && consumer.me !in steps && IdsBelow()
      ensures ok <==> HandlerOk(f, old(instances), msg.payload, ready)
      ensures Ran(lines, f, old(instances), instances, msg.payload, ready)
      ensures Chosen(ready, f.publish, sent)
      ensures Sent(old(consumer.queue), old(consumer.nextId), consumer.queue, consumer.nextId, sent,
                   consumer.now - old(consumer.now))
    {
      hide IsReadySet, Sent, FinishOk, IsRows, Ready, RunningOthers, Apply, Enabled, IsRun, Chosen;
      ghost var s0, w := Shot(), consumer.me;
      ready, sent := map[], map[];
      if f.count {
        acts := GiveUp(id, msg, f.publish);
        return false, ready, sent, acts;
      }
      var count := RunningCount(msg.payload);
      acts := [Count(w)];
      CountEnabled(lines, s0, w);
      OneAction(lines, s0, Count(w));
      GoTo(if count > 0 then Aborting else Loading);
      ghost var s1 := Shot();
      ghost var more;
      if count > 0 {
        NothingSent(consumer.queue, consumer.nextId, 0);
        ChosenNothing(f.publish);
        ok, more := CallOff(id, msg, f.lostAbort);
      } else {
        ok, ready, sent, more := RunInstance(id, msg, f);
      }
      Join(lines, s0, acts, s1, more, Shot());
      acts := acts + more;
    }

    /** Another instance of the node waits or runs: this one is aborted, and an error of that
        write is ignored. */
    method CallOff(id: nat, msg: Q.DelayMessage, lost: bool) returns (ok: bool, ghost acts: seq<Action>)
      requires At(id, msg, Aborting) && IdsBelow()
      modifies this`instances, this`steps, consumer`work
      ensures IsRun(lines, old(Shot()), acts, Shot())
      ensures consumer.Holding(id, msg, Q.Returned(ok)) && consumer.me !in steps && IdsBelow()
      ensures ok && instances == if lost then old(instances) else WithStatus(old(instances), msg.payload, Abort)
    {
      ghost var s0, w := Shot(), consumer.me;
      acts := [AbortWrite(w, lost)];
      OneAction(lines, s0, acts[0]);
      LeaveHandler(id, msg, true);
      if !lost {
        UpdateInstance(msg.payload, Abort);
      }
      ok := true;
    }

    /** The instance is loaded, run and finished. */
    method RunInstance(id: nat, msg: Q.DelayMessage, f: Faults)
      returns (ok: bool, ghost ready: map<Id, int>, ghost sent: map<Id, int>, ghost acts: seq<Action>)
      requires At(id, msg, Loading) && IdsBelow()
      modifies this`instances, this`steps, consumer
      ensures IsRun(lines, old(Shot()), acts, Shot())
      ensures consumer.Holding(id, msg, Q.Returned(ok)) && consumer.me !in steps && IdsBelow()
      ensures var x, loads := msg.payload, !f.load && msg.payload in old(instances);
              && (ok <==> loads && FinishOk(f, ready))
              && instances == (if loads && !f.write then WithStatus(old(instances), x, Success) else old(instances))
              && if loads && !f.write && !f.query then IsReadySet(lines, instances, x, ready) else ready == map[]
      ensures Chosen(ready, f.publish, sent)
      ensures Sent(old(consumer.queue), old(consumer.nextId), consumer.queue, consumer.nextId, sent,
                   consumer.now - old(consumer.now))
    {
      hide IsReadySet, Sent, IsRows, Ready, IsRun, Chosen, FinishOk;
      ghost var s0, w := Shot(), consumer.me;
      ready, sent := map[], map[];
      if f.load || msg.payload !in instances {
        acts := GiveUp(id, msg, f.publish);
        return false, ready, sent, acts;
      }
      acts := [Load(w)];
      OneAction(lines, s0, Load(w));
      GoTo(Writing);
      ghost var s1 := Shot();
      ghost var more;
      ok, ready, sent, more := FinishInstance(id, msg, f);
      Join(lines, s0, acts, s1, more, Shot());
      acts := acts + more;
    }

    ghost method GoTo(step: Step)
      modifies this`steps
      ensures steps == old(steps)[consumer.me := step]
    {
      steps := steps[consumer.me := step];
    }

    ghost method LeaveHandler(id: nat, msg: Q.DelayMessage, ok: bool)
      requires consumer.Holding(id, msg, Q.Called) && consumer.me in steps
      modifies this`steps, consumer`work
      ensures consumer.Holding(id, msg, Q.Returned(ok)) && consumer.me !in steps
      ensures Shot() == Leave(old(Shot()), consumer.me, ok)
    {
      consumer.HandlerReturns(id, msg, ok);
      steps := steps - {consumer.me};
    }

    /** The handler returns an error: nothing is sent. */
    ghost method GiveUp(id: nat, msg: Q.DelayMessage, failAt: Option<nat>) returns (acts: seq<Action>)
      requires consumer.Holding(id, msg, Q.Called) && consumer.me in steps
      modifies this`steps, consumer`work
      ensures IsRun(lines, old(Shot()), acts, Shot())
      ensures consumer.Holding(id, msg, Q.Returned(false)) && consumer.me !in steps
      ensures Chosen(map[], failAt, map[])
      ensures Sent(consumer.queue, consumer.nextId, consumer.queue, consumer.nextId, map[], 0)
    {
      hide IsRun, Sent, Chosen, Apply, Enabled;
      var s0, w := Shot(), consumer.me;
      acts := [Fail(w)];
      FailEnabled(lines, s0, w);
      OneAction(lines, s0, Fail(w));
      LeaveHandler(id, msg, false);
      NothingSent(consumer.queue, consumer.nextId, 0);
      ChosenNothing(failAt);
    }

    /** The status write, then the release of the downstreams. */
    method FinishInstance(id: nat, msg: Q.DelayMessage, f: Faults)
      returns (ok: bool, ghost ready: map<Id, int>, ghost sent: map<Id, int>, ghost acts: seq<Action>)
      requires At(id, msg, Writing) && IdsBelow()
      modifies this`instances, this`steps, consumer
      ensures IsRun(lines, old(Shot()), acts, Shot())
      ensures consumer.Holding(id, msg, Q.Returned(ok)) && consumer.me !in steps && IdsBelow()
      ensures ok <==> FinishOk(f, ready)
      ensures instances == if f.write then old(instances) else WithStatus(old(instances), msg.payload, Success)
      ensures if f.write || f.query then ready == map[] else IsReadySet(lines, instances, msg.payload, ready)
      ensures Chosen(ready, f.publish, sent)
      ensures Sent(old(consumer.queue), old(consumer.nextId), consumer.queue, consumer.nextId, sent,
                   consumer.now - old(consumer.now))
    {
      hide IsReadySet, Sent, IsRows, Ready, Chosen;
      ghost var s0, w := Shot(), consumer.me;
      ready, sent := map[], map[];
      if f.write {
        acts := GiveUp(id, msg, f.publish);
        return false, ready, sent, acts;
      }
      acts := [Write(w)];
      OneAction(lines, s0, Write(w));
      UpdateInstance(msg.payload, Success);
      GoTo(Querying);
      ghost var s1 := Shot();
      ghost var more;
      ok, ready, sent, more := TryNextInstances(id, msg, f);
      Join(lines, s0, acts, s1, more, Shot());
      acts := acts + more;
    }

    /** One query, then one publish per ready downstream, in any order. */
    method TryNextInstances(id: nat, msg: Q.DelayMessage, f: Faults)
      returns (ok: bool, ghost ready: map<Id, int>, ghost sent: map<Id, int>, ghost acts: seq<Action>)
      requires At(id, msg, Querying) && IdsBelow()
      modifies this`steps, consumer
      ensures IsRun(lines, old(Shot()), acts, Shot())
      ensures consumer.Holding(id, msg, Q.Returned(ok)) && consumer.me !in steps && IdsBelow()
      ensures ok <==> !f.query && !PublishFails(f, ready)
      ensures if f.query then ready == map[] else IsReadySet(lines, instances, msg.payload, ready)
      ensures Chosen(ready, f.publish, sent)
      ensures Sent(old(consumer.queue), old(consumer.nextId), consumer.queue, consumer.nextId, sent,
                   consumer.now - old(consumer.now))
    {
      hide Sent, IsRows, Ready, Chosen, IsReady;
      ghost var s0, w := Shot(), consumer.me;
      ready, sent := map[], map[];
      if f.query {
        acts := GiveUp(id, msg, f.publish);
        return false, ready, sent, acts;
      }
      var rows := TryNextRows(msg.payload);
      acts := [Query(w, rows)];
      OneAction(lines, s0, Query(w, rows));
      var todo := GetAlreadyInfo(rows);
      ready := todo;
      GoTo(Publishing(todo));
      ghost var s1 := Shot();
      ghost var more;
      ok, sent, more := PublishAll(id, msg, todo, f.publish);
      Join(lines, s0, acts, s1, more, Shot());
      acts := acts + more;
    }

    /** In the publish loop: `done` is published, `todo` is left. */
    ghost predicate InLoop(s0: State, acts: seq<Action>, id: nat, msg: Q.DelayMessage, ready: map<Id, int>,
                           done: map<Id, int>, todo: map<Id, int>)
      reads this, consumer
    {
      && IsRun(lines, s0, acts, Shot()) && At(id, msg, Publishing(todo)) && IdsBelow()
      && s0.q.now <= consumer.now && Halves(ready, done, todo)
      && Sent(s0.q.queue, s0.q.nextId, consumer.queue, consumer.nextId, done, consumer.now - s0.q.now)
    }

    /** The publish loop, which stops at the first error; `failAt` counts from 0. */
    method PublishAll(id: nat, msg: Q.DelayMessage, ready: map<Id, int>, failAt: Option<nat>)
      returns (ok: bool, ghost sent: map<Id, int>, ghost acts: seq<Action>)
      requires At(id, msg, Publishing(ready)) && IdsBelow()
      modifies this`steps, consumer
      ensures IsRun(lines, old(Shot()), acts, Shot())
      ensures consumer.Holding(id, msg, Q.Returned(ok)) && consumer.me !in steps && IdsBelow()
      ensures ok <==> !(failAt.Some? && failAt.value < |ready|)
      ensures Chosen(ready, failAt, sent)
      ensures Sent(old(consumer.queue), old(consumer.nextId), consumer.queue, consumer.nextId, sent,
                   consumer.now - old(consumer.now))
    {
      hide Sent, Chosen, IsRun, At;
      ok, sent, acts := PublishLoop(Shot(), id, msg, ready, failAt);
    }

    method PublishLoop(ghost s0: State, id: nat, msg: Q.DelayMessage, ready: map<Id, int>, failAt: Option<nat>)
      returns (ok: bool, ghost sent: map<Id, int>, ghost acts: seq<Action>)
      requires s0 == Shot() && At(id, msg, Publishing(ready)) && IdsBelow()
      modifies this`steps, consumer
      ensures IsRun(lines, s0, acts, Shot())
      ensures consumer.Holding(id, msg, Q.Returned(ok)) && consumer.me !in steps && IdsBelow()
      ensures ok <==> !(failAt.Some? && failAt.value < |ready|)
      ensures Chosen(ready, failAt, sent)
      ensures Sent(s0.q.queue, s0.q.nextId, consumer.queue, consumer.nextId, sent, consumer.now - s0.q.now)
    {
      hide *;
      var todo, n := ready, 0;
      sent, acts := map[], [];
      LoopStarts(s0, id, msg, ready);
      while todo != map[]
        invariant InLoop(s0, acts, id, msg, ready, sent, todo) && n == |sent|
        invariant failAt.Some? ==> n <= failAt.value
        decreases |todo|
      {
        if failAt.Some? && failAt.value == n {
          LoopSize(s0, acts, id, msg, ready, sent, todo);
          LoopChose(s0, acts, id, msg, ready, sent, todo, failAt);
          acts := StopPublishing(s0, acts, id, msg, ready, sent, todo, false);
          return false, sent, acts;
        }
        todo, sent, acts := PublishAny(s0, acts, id, msg, ready, sent, todo);
        n := n + 1;
      }
      LoopSize(s0, acts, id, msg, ready, sent, todo);
      LoopChose(s0, acts, id, msg, ready, sent, todo, failAt);
      acts := StopPublishing(s0, acts, id, msg, ready, sent, todo, true);
      return true, sent, acts;
    }

    /** One round of the loop, for any downstream that is left. */
    method PublishAny(ghost s0: State, ghost acts: seq<Action>, id: nat, msg: Q.DelayMessage,
                      ghost ready: map<Id, int>, ghost done: map<Id, int>, todo: map<Id, int>)
      returns (left: map<Id, int>, ghost sent: map<Id, int>, ghost all: seq<Action>)
      requires InLoop(s0, acts, id, msg, ready, done, todo) && todo != map[]
      modifies this`steps, consumer
      ensures InLoop(s0, all, id, msg, ready, sent, left) && |sent| == |done| + 1 && |left| < |todo|
    {
      hide *;
      LoopSize(s0, acts, id, msg, ready, done, todo);
      assert todo.Keys != {};
      var k :| k in todo.Keys;
      all := PublishNext(s0, acts, id, msg, ready, done, todo, k);
      sent, left := done[k := todo[k]], todo - {k};
      OneFewer(todo, k);
    }

    lemma LoopChose(s0: State, acts: seq<Action>, id: nat, msg: Q.DelayMessage, ready: map<Id, int>,
                    done: map<Id, int>, todo: map<Id, int>, failAt: Option<nat>)
      requires InLoop(s0, acts, id, msg, ready, done, todo)
      requires if todo == map[] then failAt.Some? ==> |done| <= failAt.value
               else failAt.Some? && failAt.value == |done| < |ready|
      ensures Chosen(ready, failAt, done)
    {
      hide Sent, IsRun, At;
      if todo == map[] {
        AllDone(ready, done);
      }
    }

    lemma LoopStarts(s0: State, id: nat, msg: Q.DelayMessage, ready: map<Id, int>)
      requires s0 == Shot() && At(id, msg, Publishing(ready)) && IdsBelow()
      ensures InLoop(s0, [], id, msg, ready, map[], ready)
      ensures s0.q.queue == consumer.queue && s0.q.nextId == consumer.nextId && s0.q.now == consumer.now
    {
      NoAction(lines, s0);
      NothingSent(s0.q.queue, s0.q.nextId, 0);
      HalvesStart(ready);
    }

    lemma LoopSize(s0: State, acts: seq<Action>, id: nat, msg: Q.DelayMessage, ready: map<Id, int>, done: map<Id, int>,
                   todo: map<Id, int>)
      requires InLoop(s0, acts, id, msg, ready, done, todo)
      ensures if todo == map[] then done == ready else |done| < |ready|
      ensures forall k :: k in todo ==> k !in done && |done[k := todo[k]]| == |done| + 1
    {
      hide Sent, IsRun, At;
      if todo == map[] {
        AllDone(ready, done);
      } else {
        HalvesSize(ready, done, todo);
      }
    }

    /** The loop is over: with an error, or because nothing is left. */
    ghost method StopPublishing(s0: State, acts: seq<Action>, id: nat, msg: Q.DelayMessage, ready: map<Id, int>,
                                done: map<Id, int>, todo: map<Id, int>, ok: bool)
      returns (all: seq<Action>)
      requires InLoop(s0, acts, id, msg, ready, done, todo) && (ok ==> todo == map[])
      modifies this`steps, consumer`work
      ensures IsRun(lines, s0, all, Shot())
      ensures consumer.Holding(id, msg, Q.Returned(ok)) && consumer.me !in steps && IdsBelow()
      ensures Sent(s0.q.queue, s0.q.nextId, consumer.queue, consumer.nextId, done, consumer.now - s0.q.now)
    {
      hide Sent, IsRun;
      ghost var w := consumer.me;
      var last := if ok then Finish(w) else Fail(w);
      Extend(lines, s0, acts, Shot(), last);
      all := acts + [last];
      LeaveHandler(id, msg, ok);
    }

    /** The clock goes on between the two readings that make the delay of a message: the time
        left when it is computed, and the time of the publish. */
    method WaitInLoop(ghost s0: State, ghost acts: seq<Action>, id: nat, msg: Q.DelayMessage,
                      ghost ready: map<Id, int>, ghost done: map<Id, int>, ghost todo: map<Id, int>, elapsed: nat)
      returns (ghost all: seq<Action>)
      requires InLoop(s0, acts, id, msg, ready, done, todo)
      modifies consumer`now
      ensures InLoop(s0, all, id, msg, ready, done, todo) && consumer.now == old(consumer.now) + elapsed
      ensures elapsed <= consumer.now - s0.q.now
    {
      hide Sent, Apply, IsRun, Halves;
      Extend(lines, s0, acts, Shot(), Queue(Q.Tick(elapsed)));
      all := acts + [Queue(Q.Tick(elapsed))];
      Ticked(lines, Shot(), elapsed);
      SentByThen(s0.q.queue, s0.q.nextId, consumer.queue, consumer.nextId, done, consumer.now - s0.q.now,
                 consumer.now + elapsed - s0.q.now);
      consumer.TimePasses(elapsed);
    }

    /** Publishes one downstream, due at its time or later by what the clock went on. */
    method PublishNext(ghost s0: State, ghost acts: seq<Action>, id: nat, msg: Q.DelayMessage,
                       ghost ready: map<Id, int>, ghost done: map<Id, int>, todo: map<Id, int>, k: Id)
      returns (ghost all: seq<Action>)
      requires InLoop(s0, acts, id, msg, ready, done, todo) && k in todo
      modifies this`steps, consumer
      ensures InLoop(s0, all, id, msg, ready, done[k := todo[k]], todo - {k})
    {
      hide *;
      var drift: nat := *;
      all := WaitInLoop(s0, acts, id, msg, ready, done, todo, drift);
      all := PublishNow(s0, all, id, msg, ready, done, todo, k, drift);
    }

    method PublishNow(ghost s0: State, ghost acts: seq<Action>, id: nat, msg: Q.DelayMessage,
                      ghost ready: map<Id, int>, ghost done: map<Id, int>, todo: map<Id, int>, k: Id, drift: nat)
      returns (ghost all: seq<Action>)
      requires InLoop(s0, acts, id, msg, ready, done, todo) && k in todo && drift <= consumer.now - s0.q.now
      modifies this`steps, consumer
      ensures InLoop(s0, all, id, msg, ready, done[k := todo[k]], todo - {k})
    {
      hide Sent, Apply, Enabled, IsRun, Halves;
      ghost var w := consumer.me;
      PublishEnabled(lines, Shot(), w, k, drift);
      Extend(lines, s0, acts, Shot(), Publish(w, k, drift));
      all := acts + [Publish(w, k, drift)];
      SentNext(s0, acts, id, msg, ready, done, todo, k, drift);
      PublishOne(id, msg, todo, k, drift);
    }

    lemma SentNext(s0: State, acts: seq<Action>, id: nat, msg: Q.DelayMessage, ready: map<Id, int>, done: map<Id, int>,
                   todo: map<Id, int>, k: Id, drift: nat)
      requires InLoop(s0, acts, id, msg, ready, done, todo) && k in todo && drift <= consumer.now - s0.q.now
      ensures Halves(ready, done[k := todo[k]], todo - {k})
      ensures var m := Q.DelayMessage(k, TOPIC, todo[k] + drift, Q.Pending, k, 0, MAX_RETRY);
              Sent(s0.q.queue, s0.q.nextId, consumer.queue[consumer.nextId := m], consumer.nextId + 1,
                   done[k := todo[k]], consumer.now - s0.q.now)
    {
      hide Sent, IsRun, IsRelease, At, Halves;
      HalvesMove(ready, done, todo, k);
      ReleaseRow(k, todo[k], drift, consumer.now - s0.q.now);
      SentMore(s0.q.queue, s0.q.nextId, consumer.queue, consumer.nextId, done, k, todo[k],
               Q.DelayMessage(k, TOPIC, todo[k] + drift, Q.Pending, k, 0, MAX_RETRY), consumer.now - s0.q.now);
    }

    method PublishOne(id: nat, msg: Q.DelayMessage, todo: map<Id, int>, k: Id, drift: nat)
      requires At(id, msg, Publishing(todo)) && k in todo && IdsBelow()
      modifies this`steps, consumer
      ensures Shot() == Apply(lines, old(Shot()), Publish(consumer.me, k, drift))
      ensures At(id, msg, Publishing(todo - {k})) && IdsBelow()
      ensures var sent := Q.DelayMessage(k, TOPIC, todo[k] + drift, Q.Pending, k, 0, MAX_RETRY);
              consumer.queue == old(consumer.queue)[old(consumer.nextId) := sent]
      ensures consumer.nextId == old(consumer.nextId) + 1 && consumer.now == old(consumer.now)
    {
      consumer.PublishRow(Q.Publish(TOPIC, k, k, todo[k] + drift, MAX_RETRY));
      GoTo(Publishing(todo - {k}));
    }

    /** What the drain loop may rely on between two messages. */
    ghost predicate Sound(roots: set<Id>)
      reads this, consumer
    {
      Acyclic(lines) && Local(lines, roots, Shot()) && consumer.Ready()
    }

    /** processOne, from the lookup of the handler to the final status update. The row of the
        message is settled, the ready downstreams that are chosen get theirs, and no other
        row changes. */
    method ProcessOne(id: nat, msg: Q.DelayMessage, r: Round)
      returns (ghost ok: bool, ghost ready: map<Id, int>, ghost sent: map<Id, int>, ghost acts: seq<Action>)
      requires consumer.Holding(id, msg, Q.Claimed) && consumer.me !in steps && IdsBelow()
      modifies this`instances, this`steps, consumer
      ensures IsRun(lines, old(Shot()), acts, Shot()) && consumer.Ready()
      ensures if msg.topic in old(consumer.handlers)
              then && (ok <==> HandlerOk(r.faults, old(instances), msg.payload, ready))
                   && Ran(lines, r.faults, old(instances), instances, msg.payload, ready)
                   && Chosen(ready, r.faults.publish, sent)
              else !ok && instances == old(instances) && sent == map[]
      ensures id in consumer.queue && consumer.queue[id] ==
              SettledRow(old(consumer.queue), id, msg, msg.topic in old(consumer.handlers), ok, r, consumer.now)
      ensures Sent(old(consumer.queue) - {id}, old(consumer.nextId), consumer.queue - {id}, consumer.nextId, sent,
                   consumer.now - old(consumer.now))
    {
      hide HandlerOk, Ran, Chosen, Sent, IsRun, Apply, Enabled;
      ghost var s0, q0 := Shot(), consumer.queue;
      ok, ready, sent := false, map[], map[];
      var found;
      found, acts := Enter(id, msg, r.lookupLost);
      if !found {
        NothingSent(q0 - {id}, consumer.nextId, 0);
        assert consumer.queue - {id} == q0 - {id};
        return;
      }
      ghost var s1 := Shot();
      var result;
      ghost var more;
      result, ready, sent, more := Deal(id, msg, r.faults);
      ok := result;
      ghost var q1 := consumer.queue;
      SentBeside(q0, s0.q.nextId, q1, consumer.nextId, sent, consumer.now - s0.q.now, id);
      SentByThen(q0 - {id}, s0.q.nextId, q1 - {id}, consumer.nextId, sent, consumer.now - s0.q.now,
                 consumer.now + r.elapsed - s0.q.now);
      Join(lines, s0, acts, s1, more, Shot());
      acts := acts + more;
      ghost var s2 := Shot();
      more := Settle(id, msg, result, r.elapsed, r.settleLost);
      assert consumer.queue - {id} == q1 - {id};
      Join(lines, s0, acts, s2, more, Shot());
      acts := acts + more;
    }

    /** The lookup, and the handler's first step if there is one. */
    method Enter(id: nat, msg: Q.DelayMessage, lost: bool) returns (found: bool, ghost acts: seq<Action>)
      requires consumer.Holding(id, msg, Q.Claimed) && consumer.me !in steps
      modifies this`steps, consumer
      ensures IsRun(lines, old(Shot()), acts, Shot()) && found == (msg.topic in consumer.handlers)
      ensures consumer.handlers == old(consumer.handlers) && consumer.nextId == old(consumer.nextId)
      ensures consumer.now == old(consumer.now)
      ensures found ==> At(id, msg, Counting) && consumer.queue == old(consumer.queue)
      ensures !found ==> consumer.Ready() && steps == old(steps)
      ensures !found ==> id in old(consumer.queue) &&
                         consumer.queue == if lost then old(consumer.queue)
                                           else Q.WithStatus(old(consumer.queue), id, Q.Failed)
    {
      ghost var s0, w := Shot(), consumer.me;
      acts := [Queue(Q.Lookup(w, lost))];
      OneAction(lines, s0, acts[0]);
      found := consumer.LookupHandler(id, msg, lost);
      if found {
        GoTo(Counting);
      }
    }

    method Settle(id: nat, msg: Q.DelayMessage, ok: bool, elapsed: nat, lost: bool) returns (ghost acts: seq<Action>)
      requires consumer.Holding(id, msg, Q.Returned(ok)) && consumer.me !in steps
      modifies consumer
      ensures acts == [Queue(Q.Tick(elapsed)), Queue(Q.Settle(consumer.me, lost))]
      ensures IsRun(lines, old(Shot()), acts, Shot()) && consumer.Ready()
      ensures consumer.nextId == old(consumer.nextId) && consumer.now == old(consumer.now) + elapsed
      ensures id in consumer.queue
      ensures consumer.queue[id] == AnsweredRow(old(consumer.queue), id, msg, ok, lost, consumer.now)
      ensures consumer.queue == old(consumer.queue)[id := consumer.queue[id]]
    {
      ghost var s0, w := Shot(), consumer.me;
      acts := [Queue(Q.Tick(elapsed))];
      OneAction(lines, s0, acts[0]);
      consumer.TimePasses(elapsed);
      Extend(lines, s0, acts, Shot(), Queue(Q.Settle(w, lost)));
      acts := acts + [Queue(Q.Settle(w, lost))];
      consumer.SettleMessage(id, msg, ok, lost);
    }

    /** One round of the drain loop: nothing to take, or one message taken and settled. */
    method DrainOne(ghost roots: set<Id>, r: Round) returns (took: bool, ghost acts: seq<Action>)
      requires Sound(roots)
      modifies this`instances, this`steps, consumer
      ensures IsRun(lines, old(Shot()), acts, Shot()) && Sound(roots)
      ensures took ==> Measure(lines, Shot()) < Measure(lines, old(Shot()))
      ensures !took ==> acts == [] && Shot() == old(Shot()) && NothingDue(r.locked)
    {
      hide Measure, Local, Apply, Enabled, HandlerOk;
      ghost var s0, w := Shot(), consumer.me;
      IdleHasNoStep(lines, roots, s0, w);
      var msg := consumer.FetchOne(r.locked);
      took, acts := msg.Some?, [];
      if took {
        ghost var fetch := Queue(Q.Fetch(w, msg.value.0, r.locked));
        ghost var s1 := Shot();
        Fetched(lines, roots, s0, fetch, s1);
        ghost var ok, ready, sent;
        ok, ready, sent, acts := ProcessOne(msg.value.0, msg.value.1, r);
        RunKeepsLocal(lines, roots, s1, acts, Shot());
        RunDecreases(lines, roots, s1, acts, Shot());
        OneAction(lines, s0, fetch);
        Join(lines, s0, [fetch], s1, acts, Shot());
        acts := [fetch] + acts;
      }
    }

    ghost predicate NothingDue(locked: set<nat>)
      reads consumer
    {
      forall k :: Q.Due(consumer.queue, consumer.now, k) ==> k in locked
    }

    /** drain: until nothing unlocked is due, or the context is cancelled or a fetch fails
        after `stopAt` messages. It always returns, although the handled messages publish and
        retry more of them. */
    method Drain(ghost roots: set<Id>, rounds: nat -> Round, stopAt: Option<nat>)
      returns (n: nat, ghost acts: seq<Action>)
      requires Sound(roots)
      modifies this`instances, this`steps, consumer
      ensures IsRun(lines, old(Shot()), acts, Shot()) && Sound(roots)
      ensures stopAt == Some(n) || NothingDue(rounds(n).locked)
      ensures stopAt.Some? ==> n <= stopAt.value
    {
      hide Measure, Local, Apply, Enabled, IsRun;
      ghost var s0 := Shot();
      n, acts := 0, [];
      NoAction(lines, s0);
      while stopAt != Some(n)
        invariant IsRun(lines, s0, acts, Shot()) && Sound(roots) && (stopAt.Some? ==> n <= stopAt.value)
        decreases Measure(lines, Shot())
      {
        var took;
        ghost var s1 := Shot();
        ghost var more;
        took, more := DrainOne(roots, rounds(n));
        Join(lines, s0, acts, s1, more, Shot());
        acts := acts + more;
        if !took {
          return;
        }
        n := n + 1;
      }
    }
  }

  lemma IdleHasNoStep(E: set<Edge>, roots: set<Id>, s: State, w: nat)
    requires Local(E, roots, s) && w in s.q.workers && s.q.workers[w] == Q.Idle
    ensures w !in s.steps
    ensures forall k :: k in s.q.queue ==> k < s.q.nextId
  {
    assert WorkerOk(E, s, w);
    assert forall k :: k in s.q.queue ==> Q.RowOk(s.q, k);
  }

  lemma Fetched(E: set<Edge>, roots: set<Id>, s: State, a: Action, t: State)
    requires Acyclic(E) && Local(E, roots, s) && a.Queue? && a.a.Fetch?
    requires Q.Enabled(s.q, a.a) && t == s.(q := Q.Apply(s.q, a.a))
    ensures Enabled(E, s, a) && t == Apply(E, s, a) && Local(E, roots, t)
    ensures Measure(E, t) < Measure(E, s)
  {
    hide Local, Measure;
    StepKeepsLocal(E, roots, s, a);
    StepDecreases(E, roots, s, a);
  }

  lemma AllRowsAreRows(E: set<Edge>, inst: Instances, x: Id)
    ensures forall r: Row :: r in AllRows(E, inst, x) <==>
                               && (x, r.downstream) in E && (r.upstream, r.downstream) in E && r.upstream in inst
                               && r.upstreamStatus == inst[r.upstream].status
                               && r.executeTime == inst[r.upstream].executeTime
  {
    forall r: Row | (x, r.downstream) in E && (r.upstream, r.downstream) in E && r.upstream in inst
                    && r.upstreamStatus == inst[r.upstream].status && r.executeTime == inst[r.upstream].executeTime
      ensures r in AllRows(E, inst, x)
    {
      assert (x, r.downstream).0 == x && (r.upstream, r.downstream).1 == (x, r.downstream).1;
    }
  }
}
