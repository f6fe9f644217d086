/** internal/workflow/node_runtime.go on top of the delay queue: a finished instance
    releases the downstream instances whose upstreams have all succeeded. The worker steps
    interleave freely; every database operation may fail, and a worker may crash. */
module WorkflowProtocol {
  import opened Common
  import opened Digraph
  import opened InstanceLinks
  import Q = DelayQueue

  const TOPIC: Id := Id("instance_execute")
  const MAX_RETRY: nat := 3

  type Instances = map<Id, Instance>

  /** One row of TryNextRows. The intended rows are modelled: every upstream of every
      downstream of the finished instance, with the upstream's status and time. */
  datatype Row = Row(downstream: Id, upstream: Id, upstreamStatus: InstanceStatus, executeTime: int)

  /** Where the handler stands, between two database operations. */
  datatype Step = Counting | Aborting | Loading | Writing | Querying | Publishing(todo: map<Id, int>)

  /** `waiting`: the roots of batches that are not queued yet. */
  datatype State = State(q: Q.QueueState, instances: Instances, steps: map<nat, Step>, waiting: set<Id>)

  datatype Action =
    | Queue(a: Q.QueueAction)
    | Count(w: nat)
    | AbortWrite(w: nat, lost: bool)
    | Load(w: nat)
    | Write(w: nat)
    | Query(w: nat, rows: seq<Row>)
    | Publish(w: nat, k: Id, drift: nat)
    | Finish(w: nat)
    | Fail(w: nat)
    | QueueRoot(r: Id, node: Id, time: int)
    | Insert(batch: Instances)

  ghost function Ups(E: set<Edge>, d: Id): set<Id> {
    set e | e in E && e.1 == d :: e.0
  }

  ghost function Downs(E: set<Edge>, u: Id): set<Id> {
    set e | e in E && e.0 == u :: e.1
  }

  ghost predicate Done(inst: Instances, x: Id) {
    x in inst && inst[x].status == Success
  }

  ghost predicate AllUpsDone(E: set<Edge>, inst: Instances, d: Id) {
    Ups(E, d) != {} && forall u :: u in Ups(E, d) ==> Done(inst, u)
  }

  /** Other instances of the same node that wait or run. */
  ghost function RunningOthers(inst: Instances, x: Id): set<Id> {
    set t | t in inst && x in inst && t != x && inst[t].nodeId == inst[x].nodeId
            && (inst[t].status == Waiting || inst[t].status == Running)
  }

  ghost predicate IsRows(E: set<Edge>, inst: Instances, x: Id, rows: seq<Row>) {
    forall r :: r in rows <==> && (x, r.downstream) in E && (r.upstream, r.downstream) in E && r.upstream in inst
                               && r.upstreamStatus == inst[r.upstream].status
                               && r.executeTime == inst[r.upstream].executeTime
  }

  // ---- which downstreams are ready ----

  ghost function Downstreams(rows: seq<Row>): set<Id> {
    set r | r in rows :: r.downstream
  }

  ghost predicate AllSucceeded(rows: seq<Row>, d: Id) {
    forall r :: r in rows && r.downstream == d ==> r.upstreamStatus == Success
  }

  ghost function FirstTime(rows: seq<Row>, d: Id): int {
    if rows == [] then 0 else if rows[0].downstream == d then rows[0].executeTime else FirstTime(rows[1..], d)
  }

  ghost function Ready(rows: seq<Row>): map<Id, int> {
    map d | d in Downstreams(rows) && AllSucceeded(rows, d) :: FirstTime(rows, d)
  }

  // ---- steps ----

  ghost predicate AtStep(s: State, w: nat) {
    w in s.steps && Q.IsBusy(s.q, w, Q.Called)
  }

  ghost function PayloadOf(s: State, w: nat): Id
    requires AtStep(s, w)
  {
    s.q.workers[w].msg.payload
  }

  ghost predicate Enabled(E: set<Edge>, s: State, a: Action) {
    match a
    case Queue(qa) => Q.Enabled(s.q, qa) && !qa.Publish? && !qa.Return?
    case Count(w) => AtStep(s, w) && s.steps[w] == Counting
    case AbortWrite(w, _) => AtStep(s, w) && s.steps[w] == Aborting
    case Load(w) => AtStep(s, w) && s.steps[w] == Loading && PayloadOf(s, w) in s.instances
    case Write(w) => AtStep(s, w) && s.steps[w] == Writing
    case Query(w, rows) => AtStep(s, w) && s.steps[w] == Querying && IsRows(E, s.instances, PayloadOf(s, w), rows)
    case Publish(w, k, _) => AtStep(s, w) && s.steps[w].Publishing? && k in s.steps[w].todo
    case Finish(w) => AtStep(s, w) && s.steps[w] == Publishing(map[])
    case Fail(w) => AtStep(s, w)
    case QueueRoot(r, _, _) => r in s.waiting
    case Insert(batch) => Insertable(E, s, batch)
  }

  /** The rows of a new batch: none has been there before, none is named by a message, and
      their lines stay among themselves. */
  ghost predicate Insertable(E: set<Edge>, s: State, batch: Instances) {
    && batch.Keys !! s.instances.Keys && LinesKnown(E, s.instances + batch)
    && (forall x :: x in batch ==> batch[x].status == NotReady)
    && forall id :: id in s.q.queue ==> s.q.queue[id].payload !in batch
  }

  function WithStatus(inst: Instances, x: Id, status: InstanceStatus): Instances {
    if x in inst then inst[x := inst[x].(status := status)] else inst
  }

  /** The handler returns; the consumer will settle the message. */
  ghost function Leave(s: State, w: nat, ok: bool): State
    requires AtStep(s, w)
  {
    s.(q := Q.Apply(s.q, Q.Return(w, ok)), steps := s.steps - {w})
  }

  ghost function Next(s: State, w: nat, step: Step): State {
    s.(steps := s.steps[w := step])
  }

  ghost function PublishAction(s: State, w: nat, k: Id, drift: nat): Q.QueueAction
    requires AtStep(s, w) && s.steps[w].Publishing? && k in s.steps[w].todo
  {
    Q.Publish(TOPIC, k, k, s.steps[w].todo[k] + drift, MAX_RETRY)
  }

  /** The last step of creating a batch. */
  ghost function RootAction(r: Id, node: Id, time: int): Q.QueueAction {
    Q.Publish(TOPIC, node, r, time, MAX_RETRY)
  }

  ghost function Apply(E: set<Edge>, s: State, a: Action): State
    requires Enabled(E, s, a)
  {
    match a
    case Queue(qa) =>
      var q := Q.Apply(s.q, qa);
      if qa.Lookup? && s.q.workers[qa.w].msg.topic in s.q.topics then Next(s, qa.w, Counting).(q := q)
      else if qa.Crash? then s.(q := q, steps := s.steps - {qa.w})
      else s.(q := q)
    case Count(w) => Next(s, w, if RunningOthers(s.instances, PayloadOf(s, w)) != {} then Aborting else Loading)
    case AbortWrite(w, lost) =>
      Leave(s, w, true).(instances := if lost then s.instances else WithStatus(s.instances, PayloadOf(s, w), Abort))
    case Load(w) => Next(s, w, Writing)
    case Write(w) => Next(s, w, Querying).(instances := WithStatus(s.instances, PayloadOf(s, w), Success))
    case Query(w, rows) => Next(s, w, Publishing(Ready(rows)))
    case Publish(w, k, drift) =>
      Next(s, w, Publishing(s.steps[w].todo - {k})).(q := Q.Apply(s.q, PublishAction(s, w, k, drift)))
    case Finish(w) => Leave(s, w, true)
    case Fail(w) => Leave(s, w, false)
    case QueueRoot(r, node, time) => s.(q := Q.Apply(s.q, RootAction(r, node, time)), waiting := s.waiting - {r})
    case Insert(batch) => s.(instances := s.instances + batch)
  }

  ghost predicate IsRun(E: set<Edge>, s: State, acts: seq<Action>, t: State)
    decreases |acts|
  {
    if acts == [] then s == t
    else Enabled(E, s, acts[0]) && IsRun(E, Apply(E, s, acts[0]), acts[1..], t)
  }

  /** Instance lines join stored instances; those of a batch still to come join none. */
  ghost predicate LinesKnown(E: set<Edge>, inst: Instances) {
    forall e :: e in E ==> (e.0 in inst <==> e.1 in inst)
  }

  /** Any number of batches, each with its root, none of them started. Their rows are there,
      or are inserted later. A root may even be queued although its rows never come. */
  ghost predicate Init(E: set<Edge>, roots: set<Id>, s: State) {
    && Q.Init(s.q) && s.q.queue == map[] && s.steps == map[] && s.waiting == roots
    && LinesKnown(E, s.instances)
    && forall x :: x in s.instances ==> s.instances[x].status == NotReady
  }

  // ---- putting runs together ----

  lemma NoAction(E: set<Edge>, s: State)
    ensures IsRun(E, s, [], s)
  {
  }

  lemma OneAction(E: set<Edge>, s: State, a: Action)
    requires Enabled(E, s, a)
    ensures IsRun(E, s, [a], Apply(E, s, a))
  {
    assert [a][1..] == [];
  }

  lemma {:induction false} Extend(E: set<Edge>, s: State, acts: seq<Action>, t: State, a: Action)
    requires IsRun(E, s, acts, t) && Enabled(E, t, a)
    ensures IsRun(E, s, acts + [a], Apply(E, t, a))
    decreases |acts|
  {
    if acts == [] {
      OneAction(E, s, a);
      assert [] + [a] == [a];
    } else {
      Extend(E, Apply(E, s, acts[0]), acts[1..], t, a);
      assert (acts + [a])[1..] == acts[1..] + [a];
    }
  }

  lemma {:induction false} Join(E: set<Edge>, s: State, a: seq<Action>, m: State, b: seq<Action>, t: State)
    requires IsRun(E, s, a, m) && IsRun(E, m, b, t)
    ensures IsRun(E, s, a + b, t)
    decreases |a|
  {
    if a == [] {
      assert a + b == b;
    } else {
      Join(E, Apply(E, s, a[0]), a[1..], m, b, t);
      assert (a + b)[1..] == a[1..] + b;
    }
  }

  // ---- every step is a queue step or leaves the queue alone ----

  ghost function QueueActions(s: State, a: Action): seq<Q.QueueAction> {
    match a
    case Queue(qa) => [qa]
    case AbortWrite(w, _) => [Q.Return(w, true)]
    case Publish(w, k, drift) =>
      if AtStep(s, w) && s.steps[w].Publishing? && k in s.steps[w].todo then [PublishAction(s, w, k, drift)] else []
    case Finish(w) => [Q.Return(w, true)]
    case Fail(w) => [Q.Return(w, false)]
    case QueueRoot(r, node, time) => [RootAction(r, node, time)]
    case _ => []
  }

  lemma StepIsQueueRun(E: set<Edge>, s: State, a: Action)
    requires Enabled(E, s, a)
    ensures Q.IsRun(s.q, QueueActions(s, a), Apply(E, s, a).q)
  {
    var acts := QueueActions(s, a);
    if acts != [] {
      Q.OneStep(s.q, acts[0]);
    }
  }

  lemma {:induction false} QueueRunsCompose(s: Q.QueueState, a: seq<Q.QueueAction>, m: Q.QueueState,
                                            b: seq<Q.QueueAction>, t: Q.QueueState)
    requires Q.IsRun(s, a, m) && Q.IsRun(m, b, t)
    ensures Q.IsRun(s, a + b, t)
    decreases |a|
  {
    if a == [] {
      assert a + b == b;
    } else {
      QueueRunsCompose(Q.Apply(s, a[0]), a[1..], m, b, t);
      assert (a + b)[1..] == a[1..] + b;
    }
  }

  /** The workflow refines the queue protocol, so every queue guarantee holds of it. */
  lemma {:induction false} RunIsQueueRun(E: set<Edge>, s: State, acts: seq<Action>, t: State)
    returns (qacts: seq<Q.QueueAction>)
    requires IsRun(E, s, acts, t)
    ensures Q.IsRun(s.q, qacts, t.q)
    decreases |acts|
  {
    if acts == [] {
      qacts := [];
    } else {
      var m := Apply(E, s, acts[0]);
      StepIsQueueRun(E, s, acts[0]);
      var rest := RunIsQueueRun(E, m, acts[1..], t);
      QueueRunsCompose(s.q, QueueActions(s, acts[0]), m.q, rest, t.q);
      qacts := QueueActions(s, acts[0]) + rest;
    }
  }
}
