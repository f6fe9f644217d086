/** Termination: over an acyclic instance graph every run makes only boundedly many steps
    besides the clock, in spite of duplicate messages and retries. */
module WorkflowTermination {
  import opened Common
  import opened Digraph
  import opened Sums
  import opened InstanceLinks
  import opened WorkflowProtocol
  import opened WorkflowSafety
  import Q = DelayQueue

  /** What one try of an instance can still cause: its own steps and, for every downstream,
      one publish and all tries of the published message. */
  ghost function Cost(E: set<Edge>, x: Id): nat
    requires Acyclic(E)
    decreases Below(E, x), 1
  {
    8 + Total(DownCosts(E, x))
  }

  ghost function DownCosts(E: set<Edge>, x: Id): map<Id, nat>
    requires Acyclic(E)
    decreases Below(E, x), 0
  {
    map d | d in Downs(E, x) :: DownsAreEdges(E, x, d); BelowShrinks(E, x, d); 1 + (MAX_RETRY + 1) * Cost(E, d)
  }

  lemma DownsAreEdges(E: set<Edge>, x: Id, d: Id)
    ensures d in Downs(E, x) <==> (x, d) in E
  {
    assert (x, d).0 == x && (x, d).1 == d;
  }

  /** Queueing these instances, with all their tries. */
  ghost function PublishCosts(E: set<Edge>, ks: set<Id>): map<Id, nat>
    requires Acyclic(E)
  {
    map k | k in ks :: 1 + (MAX_RETRY + 1) * Cost(E, k)
  }

  ghost function Tries(retryCount: nat): nat {
    if retryCount <= MAX_RETRY then MAX_RETRY - retryCount else 0
  }

  ghost function MessageWeight(E: set<Edge>, m: Q.DelayMessage): nat
    requires Acyclic(E)
  {
    if m.status == Q.Pending then (Tries(m.retryCount) + 1) * Cost(E, m.payload) else 0
  }

  ghost function StepWeight(E: set<Edge>, step: Step, x: Id): nat
    requires Acyclic(E)
  {
    match step
    case Counting => Cost(E, x) - 2
    case Loading => Cost(E, x) - 3
    case Writing => Cost(E, x) - 4
    case Querying => Cost(E, x) - 5
    case Publishing(todo) => 2 + Total(PublishCosts(E, todo.Keys))
    case Aborting => 2
  }

  ghost function WorkWeight(E: set<Edge>, s: State, w: nat): nat
    requires Acyclic(E) && w in s.q.workers
  {
    match s.q.workers[w]
    case Idle => 0
    case Busy(_, m, phase) =>
      Tries(m.retryCount) * Cost(E, m.payload) +
      match phase
      case Claimed => Cost(E, m.payload) - 1
      case Called => if w in s.steps then StepWeight(E, s.steps[w], m.payload) else 1
      case Returned(_) => 1
  }

  ghost function MessageWeights(E: set<Edge>, q: Q.Queue): map<nat, nat>
    requires Acyclic(E)
  {
    map id | id in q :: MessageWeight(E, q[id])
  }

  ghost function WorkWeights(E: set<Edge>, s: State): map<nat, nat>
    requires Acyclic(E)
  {
    map w | w in s.q.workers :: WorkWeight(E, s, w)
  }

  ghost function Measure(E: set<Edge>, s: State): nat
    requires Acyclic(E)
  {
    Total(MessageWeights(E, s.q.queue)) + Total(WorkWeights(E, s)) + Total(PublishCosts(E, s.waiting))
  }

  /** Everything but the clock, handler registration and new rows is progress. */
  ghost predicate Progress(a: Action) {
    !a.Insert? && !(a.Queue? && (a.a.Tick? || a.a.Register?))
  }

  ghost function ProgressCount(acts: seq<Action>): nat {
    if acts == [] then 0 else (if Progress(acts[0]) then 1 else 0) + ProgressCount(acts[1..])
  }

  // ---- where the measure changes ----

  lemma QueueChange(E: set<Edge>, q: Q.Queue, r: Q.Queue, id: nat)
    requires Acyclic(E) && id in q && id in r && r == q[id := r[id]]
    ensures Total(MessageWeights(E, r)) + MessageWeight(E, q[id]) ==
            Total(MessageWeights(E, q)) + MessageWeight(E, r[id])
  {
    hide MessageWeight;
    TotalChangeAt(MessageWeights(E, q), MessageWeights(E, r), id);
  }

  lemma QueueGrowth(E: set<Edge>, q: Q.Queue, id: nat, m: Q.DelayMessage)
    requires Acyclic(E) && id !in q
    ensures Total(MessageWeights(E, q[id := m])) == Total(MessageWeights(E, q)) + MessageWeight(E, m)
  {
    hide MessageWeight;
    assert MessageWeights(E, q[id := m]) == MessageWeights(E, q)[id := MessageWeight(E, m)];
    TotalUpdate(MessageWeights(E, q), id, MessageWeight(E, m));
  }

  lemma WorkChange(E: set<Edge>, s: State, t: State, w: nat)
    requires Acyclic(E) && w in s.q.workers && t.q.workers.Keys == s.q.workers.Keys
    requires forall v :: v in s.q.workers && v != w ==> WorkWeight(E, s, v) == WorkWeight(E, t, v)
    ensures Total(WorkWeights(E, t)) + WorkWeight(E, s, w) == Total(WorkWeights(E, s)) + WorkWeight(E, t, w)
  {
    hide WorkWeight;
    TotalChangeAt(WorkWeights(E, s), WorkWeights(E, t), w);
  }

  lemma ActorWorkChange(E: set<Edge>, s: State, a: Action, w: nat)
    requires Acyclic(E) && Enabled(E, s, a) && Actor(a) == Some(w) && w in s.q.workers
    ensures var t := Apply(E, s, a);
            && t.q.workers.Keys == s.q.workers.Keys && t.waiting == s.waiting
            && Total(WorkWeights(E, t)) + WorkWeight(E, s, w) == Total(WorkWeights(E, s)) + WorkWeight(E, t, w)
  {
    hide Apply, Enabled, Cost, WorkWeight;
    var t := Apply(E, s, a);
    WorkersStand(E, s, a, w);
    forall v | v in s.q.workers && v != w
      ensures WorkWeight(E, s, v) == WorkWeight(E, t, v)
    {
      OthersStandStill(E, s, a, v);
      SameWorkAt(E, s, t, v);
    }
    WorkChange(E, s, t, w);
  }

  lemma WorkersStand(E: set<Edge>, s: State, a: Action, w: nat)
    requires Enabled(E, s, a) && Actor(a) == Some(w) && w in s.q.workers
    ensures Apply(E, s, a).q.workers.Keys == s.q.workers.Keys && Apply(E, s, a).waiting == s.waiting
  {
    hide Apply, Enabled, Q.Apply, Q.Enabled, RunningOthers, Ready;
    if a.Queue? {
      QueueStepIs(E, s, a);
      Q.WorkersStay(s.q, a.a);
    } else if Adds(a) {
      AddStepIs(E, s, a);
    } else if a.Insert? {
      InsertStepIs(E, s, a);
    } else {
      HandlerStepIs(E, s, a);
      HandlerMoves(E, s, a, w);
    }
  }

  lemma SameWorkAt(E: set<Edge>, s: State, t: State, v: nat)
    requires Acyclic(E) && v in s.q.workers && SameAt(s, t, v)
    ensures WorkWeight(E, t, v) == WorkWeight(E, s, v)
  {
    hide Cost, StepWeight;
  }

  lemma CostAtLeast(E: set<Edge>, x: Id)
    requires Acyclic(E)
    ensures Cost(E, x) >= 8
  {
  }

  /** A query's publish list costs no more than all downstreams. */
  lemma ReadyCosts(E: set<Edge>, inst: Instances, x: Id, rows: seq<Row>)
    requires Acyclic(E) && IsRows(E, inst, x, rows)
    ensures Total(PublishCosts(E, Ready(rows).Keys)) + 8 <= Cost(E, x)
  {
    var p, d := PublishCosts(E, Ready(rows).Keys), DownCosts(E, x);
    forall k | k in p
      ensures k in d && p[k] == d[k]
    {
      var r :| r in rows && r.downstream == k;
      DownsAreEdges(E, x, k);
    }
    TotalMonotone(p, d);
  }

  lemma PublishCostsRemove(E: set<Edge>, ks: set<Id>, k: Id)
    requires Acyclic(E) && k in ks
    ensures Total(PublishCosts(E, ks)) == Total(PublishCosts(E, ks - {k})) + 1 + (MAX_RETRY + 1) * Cost(E, k)
  {
    TotalRemove(PublishCosts(E, ks), k);
    assert PublishCosts(E, ks) - {k} == PublishCosts(E, ks - {k});
  }

  // ---- every progress step lowers the measure ----

  lemma HandlerWorkDrops(E: set<Edge>, roots: set<Id>, s: State, a: Action, w: nat, t: State)
    requires Acyclic(E) && Local(E, roots, s) && Enabled(E, s, a) && Actor(a) == Some(w)
    requires Handles(a) && t == Apply(E, s, a) && w in s.q.workers && w in t.q.workers
    ensures t.q.queue == s.q.queue && WorkWeight(E, t, w) < WorkWeight(E, s, w)
  {
    hide Cost, PublishCosts, DownCosts, AllUpsDone, HasMessage, IsRows, Apply, Enabled, Ready, RunningOthers, Local;
    NeverAborts(E, roots, s, a);
    HandlerStepIs(E, s, a);
    HandlerMoves(E, s, a, w);
    var x := PayloadOf(s, w);
    StepWeighs(E, s, w);
    CostAtLeast(E, x);
    if Leaves(a) {
      NotAborting(E, roots, s, w);
    } else {
      StepWeighs(E, t, w);
      if a.Query? {
        ReadyCosts(E, s.instances, x, a.rows);
      } else if a.Count? {
        NobodyRuns(E, roots, s, x);
      }
    }
  }

  lemma StepWeighs(E: set<Edge>, s: State, w: nat)
    requires Acyclic(E) && AtStep(s, w)
    ensures WorkWeight(E, s, w) ==
            Tries(s.q.workers[w].msg.retryCount) * Cost(E, PayloadOf(s, w)) + StepWeight(E, s.steps[w], PayloadOf(s, w))
  {
    hide Cost, StepWeight, Tries;
  }

  lemma NotAborting(E: set<Edge>, roots: set<Id>, s: State, w: nat)
    requires Acyclic(E) && Local(E, roots, s) && w in s.steps && w in s.q.workers
    ensures s.steps[w] != Aborting && StepWeight(E, s.steps[w], s.q.workers[w].msg.payload) >= 2
  {
    hide Cost, PublishCosts, AllUpsDone, HasMessage, MessageOk;
    assert WorkerOk(E, s, w);
    CostAtLeast(E, s.q.workers[w].msg.payload);
  }

  lemma PublishWorkDrops(E: set<Edge>, s: State, a: Action)
    requires Acyclic(E) && Enabled(E, s, a) && a.Publish? && a.w in s.q.workers
    ensures WorkWeight(E, Apply(E, s, a), a.w) + 1 + (MAX_RETRY + 1) * Cost(E, a.k) == WorkWeight(E, s, a.w)
  {
    hide Cost, PublishCosts;
    var todo := s.steps[a.w].todo;
    PublishCostsRemove(E, todo.Keys, a.k);
    assert (todo - {a.k}).Keys == todo.Keys - {a.k};
  }

  lemma PublishDecreases(E: set<Edge>, roots: set<Id>, s: State, a: Action)
    requires Acyclic(E) && Local(E, roots, s) && Enabled(E, s, a) && a.Publish?
    ensures Measure(E, Apply(E, s, a)) < Measure(E, s)
  {
    hide WorkWeight, Cost, MessageWeights, WorkWeights, WorkerOk, MessageOk, HasMessage;
    PublishWorkDrops(E, s, a);
    ActorWorkChange(E, s, a, a.w);
    var m := Q.DelayMessage(a.k, TOPIC, s.steps[a.w].todo[a.k] + a.drift, Q.Pending, a.k, 0, MAX_RETRY);
    FreshId(E, roots, s);
    QueueGrowth(E, s.q.queue, s.q.nextId, m);
  }

  lemma RootDecreases(E: set<Edge>, roots: set<Id>, s: State, a: Action)
    requires Acyclic(E) && Local(E, roots, s) && Enabled(E, s, a) && a.QueueRoot?
    ensures Measure(E, Apply(E, s, a)) < Measure(E, s)
  {
    var t, m := Apply(E, s, a), Q.DelayMessage(a.node, TOPIC, a.time, Q.Pending, a.r, 0, MAX_RETRY);
    assert t.q.queue == s.q.queue[s.q.nextId := m] && t.waiting == s.waiting - {a.r};
    FreshId(E, roots, s);
    hide MessageWeights, WorkWeights, PublishCosts, Cost, Apply, Enabled, Local;
    SameWork(E, s, t);
    RootMoves(E, s, m, a.r);
  }

  /** The cost of queueing a root becomes the cost of its message. */
  lemma RootMoves(E: set<Edge>, s: State, m: Q.DelayMessage, r: Id)
    requires Acyclic(E) && r in s.waiting && s.q.nextId !in s.q.queue
    requires m.payload == r && m.status == Q.Pending && m.retryCount == 0
    ensures Total(MessageWeights(E, s.q.queue[s.q.nextId := m])) + Total(PublishCosts(E, s.waiting - {r})) + 1 ==
            Total(MessageWeights(E, s.q.queue)) + Total(PublishCosts(E, s.waiting))
  {
    hide Cost, PublishCosts, MessageWeights;
    PublishCostsRemove(E, s.waiting, r);
    QueueGrowth(E, s.q.queue, s.q.nextId, m);
    assert MessageWeight(E, m) == (MAX_RETRY + 1) * Cost(E, r);
  }

  lemma SameWork(E: set<Edge>, s: State, t: State)
    requires Acyclic(E) && t.q.workers == s.q.workers && t.steps == s.steps
    ensures WorkWeights(E, t) == WorkWeights(E, s)
  {
  }

  lemma HandlerDecreases(E: set<Edge>, roots: set<Id>, s: State, a: Action, w: nat)
    requires Acyclic(E) && Local(E, roots, s) && Enabled(E, s, a) && Actor(a) == Some(w)
    requires Handles(a)
    ensures Measure(E, Apply(E, s, a)) < Measure(E, s)
  {
    hide WorkWeight, Cost, MessageWeights, WorkWeights, Apply, Enabled, Local;
    HandlerStepIs(E, s, a);
    ActorWorkChange(E, s, a, w);
    HandlerWorkDrops(E, roots, s, a, w, Apply(E, s, a));
  }

  /** A retry or a failure never weighs more than the tries that were left. */
  lemma ErrorWeight(E: set<Edge>, q: Q.Queue, id: nat, msg: Q.DelayMessage, now: int)
    requires Acyclic(E) && id in q && q[id] == msg.(status := Q.Running)
    requires msg.maxRetry == MAX_RETRY && msg.retryCount <= MAX_RETRY
    ensures id in Q.AfterError(q, id, msg, now)
    ensures Q.AfterError(q, id, msg, now) == q[id := Q.AfterError(q, id, msg, now)[id]]
    ensures MessageWeight(E, Q.AfterError(q, id, msg, now)[id]) <= Tries(msg.retryCount) * Cost(E, msg.payload)
  {
    hide Cost;
    if msg.retryCount < MAX_RETRY {
      assert Tries(msg.retryCount + 1) + 1 == Tries(msg.retryCount);
    }
  }

  /** The row and the worker that a queue step changes. */
  lemma QueueStepWeights(E: set<Edge>, roots: set<Id>, s: State, a: Action, w: nat, id: nat, t: State)
    requires Acyclic(E) && Local(E, roots, s) && Enabled(E, s, a) && a.Queue? && Actor(a) == Some(w)
    requires t == Apply(E, s, a) && w in s.q.workers && w in t.q.workers
    requires a.a.Fetch? || s.q.workers[w].Busy?
    requires id == if a.a.Fetch? then a.a.id else s.q.workers[w].id
    ensures id in s.q.queue && id in t.q.queue && t.q.queue == s.q.queue[id := t.q.queue[id]]
    ensures MessageWeight(E, t.q.queue[id]) + WorkWeight(E, t, w)
            < MessageWeight(E, s.q.queue[id]) + WorkWeight(E, s, w)
  {
    hide Cost, Apply, Enabled, Local, MessageWeight, WorkWeight, Q.Apply, Q.Enabled;
    QueueStepIs(E, s, a);
    if a.a.Fetch? {
      FetchWeights(E, roots, s, a.a, t);
    } else {
      HeldRow(E, roots, s, w);
      BusyStepWeights(E, roots, s, a.a, t);
    }
  }

  /** The row of a busy worker, as the invariants know it. */
  lemma HeldRow(E: set<Edge>, roots: set<Id>, s: State, w: nat)
    requires Local(E, roots, s) && w in s.q.workers && s.q.workers[w].Busy?
    ensures var msg, id := s.q.workers[w].msg, s.q.workers[w].id;
            && id in s.q.queue && s.q.queue[id] == msg.(status := Q.Running)
            && msg.topic == TOPIC && msg.maxRetry == MAX_RETRY && msg.retryCount <= MAX_RETRY
  {
    hide AllUpsDone, HasMessage, StepOk, Released, WorkerOk;
    assert Q.WorkerOk(s.q, w);
    assert MessageOk(E, roots, s, s.q.workers[w].id) && Q.RowOk(s.q, s.q.workers[w].id);
  }

  lemma BusyStepWeights(E: set<Edge>, roots: set<Id>, s: State, a: Q.QueueAction, t: State)
    requires Acyclic(E) && Local(E, roots, s) && Q.Enabled(s.q, a) && t.q == Q.Apply(s.q, a)
    requires a.Lookup? || a.Settle? || a.Crash?
    requires s.q.workers[a.w].Busy? && s.q.workers[a.w].id in s.q.queue
    requires t.steps == if a.Lookup? && s.q.workers[a.w].msg.topic in s.q.topics then s.steps[a.w := Counting]
                        else if a.Crash? then s.steps - {a.w}
                        else s.steps
    ensures var id := s.q.workers[a.w].id;
            && id in t.q.queue && t.q.queue == s.q.queue[id := t.q.queue[id]]
            && MessageWeight(E, t.q.queue[id]) + WorkWeight(E, t, a.w)
               < MessageWeight(E, s.q.queue[id]) + WorkWeight(E, s, a.w)
  {
    hide Cost, Local, PublishCosts, Q.AfterError, StepWeight;
    var id, msg := s.q.workers[a.w].id, s.q.workers[a.w].msg;
    HeldRow(E, roots, s, a.w);
    CostAtLeast(E, msg.payload);
    if a.Settle? {
      ErrorWeight(E, s.q.queue, id, msg, s.q.now);
    } else if a.Crash? {
      HeldWeighs(E, roots, s, a.w);
    } else {
      CountingWeighs(E, msg.payload);
    }
  }

  lemma CountingWeighs(E: set<Edge>, x: Id)
    requires Acyclic(E)
    ensures StepWeight(E, Counting, x) == Cost(E, x) - 2
  {
    hide Cost;
  }

  lemma FetchWeights(E: set<Edge>, roots: set<Id>, s: State, a: Q.QueueAction, t: State)
    requires Acyclic(E) && Local(E, roots, s) && a.Fetch? && Q.Enabled(s.q, a) && t.q == Q.Apply(s.q, a)
    ensures a.id in s.q.queue && a.id in t.q.queue && t.q.queue == s.q.queue[a.id := t.q.queue[a.id]]
    ensures MessageWeight(E, t.q.queue[a.id]) + WorkWeight(E, t, a.w)
            < MessageWeight(E, s.q.queue[a.id]) + WorkWeight(E, s, a.w)
  {
    hide Cost, AllUpsDone, HasMessage, StepOk, Released, Local;
    var m := s.q.queue[a.id];
    CostAtLeast(E, m.payload);
    assert (Tries(m.retryCount) + 1) * Cost(E, m.payload) ==
           Tries(m.retryCount) * Cost(E, m.payload) + Cost(E, m.payload);
  }

  /** A busy worker always has weight left. */
  lemma HeldWeighs(E: set<Edge>, roots: set<Id>, s: State, w: nat)
    requires Acyclic(E) && Local(E, roots, s) && w in s.q.workers && s.q.workers[w].Busy?
    ensures WorkWeight(E, s, w) >= 1
  {
    hide Cost, PublishCosts;
    CostAtLeast(E, s.q.workers[w].msg.payload);
  }

  lemma QueueDecreases(E: set<Edge>, roots: set<Id>, s: State, a: Action, w: nat)
    requires Acyclic(E) && Local(E, roots, s) && Enabled(E, s, a) && a.Queue? && Actor(a) == Some(w)
    ensures Measure(E, Apply(E, s, a)) < Measure(E, s)
  {
    var id := if a.a.Fetch? then a.a.id else s.q.workers[w].id;
    hide WorkWeight, MessageWeight, Cost, MessageWeights, WorkWeights, Apply, Local;
    ActorWorkChange(E, s, a, w);
    QueueStepWeights(E, roots, s, a, w, id, Apply(E, s, a));
    QueueChange(E, s.q.queue, Apply(E, s, a).q.queue, id);
  }

  lemma LostClaimDecreases(E: set<Edge>, roots: set<Id>, s: State, a: Action)
    requires Acyclic(E) && Local(E, roots, s) && Enabled(E, s, a) && a.Queue? && a.a.FetchLost?
    ensures Measure(E, Apply(E, s, a)) < Measure(E, s)
  {
    hide Cost, MessageWeights, Local, Apply, Enabled;
    var t, id := Apply(E, s, a), a.a.id;
    QueueStepIs(E, s, a);
    QueueChange(E, s.q.queue, t.q.queue, id);
    CostAtLeast(E, s.q.queue[id].payload);
    assert WorkWeights(E, t) == WorkWeights(E, s);
    assert MessageWeight(E, s.q.queue[id]) >= Cost(E, s.q.queue[id].payload);
  }

  lemma StepDecreases(E: set<Edge>, roots: set<Id>, s: State, a: Action)
    requires Acyclic(E) && Local(E, roots, s) && Enabled(E, s, a)
    ensures Progress(a) ==> Measure(E, Apply(E, s, a)) < Measure(E, s)
    ensures !Progress(a) ==> Measure(E, Apply(E, s, a)) == Measure(E, s)
  {
    hide Local, MessageWeights, Cost, Measure;
    if !Progress(a) {
      ClockKeepsMeasure(E, s, a);
    } else if a.Queue? && a.a.FetchLost? {
      LostClaimDecreases(E, roots, s, a);
    } else if a.Queue? {
      assert !a.a.Publish? && !a.a.Return?;
      QueueDecreases(E, roots, s, a, Actor(a).value);
    } else if a.Publish? {
      PublishDecreases(E, roots, s, a);
    } else if a.QueueRoot? {
      RootDecreases(E, roots, s, a);
    } else {
      HandlerDecreases(E, roots, s, a, Actor(a).value);
    }
  }

  lemma ClockKeepsMeasure(E: set<Edge>, s: State, a: Action)
    requires Acyclic(E) && Enabled(E, s, a) && !Progress(a)
    ensures Measure(E, Apply(E, s, a)) == Measure(E, s)
  {
    hide Cost;
    SameWork(E, s, Apply(E, s, a));
  }

  lemma {:induction false} RunKeepsLocal(E: set<Edge>, roots: set<Id>, s: State, acts: seq<Action>, t: State)
    requires Local(E, roots, s) && IsRun(E, s, acts, t)
    ensures Local(E, roots, t)
    decreases |acts|
  {
    hide Local, Enabled, Apply;
    if acts != [] {
      StepKeepsLocal(E, roots, s, acts[0]);
      RunKeepsLocal(E, roots, Apply(E, s, acts[0]), acts[1..], t);
    }
  }

  /** A message of the workflow fails only after its handler was entered four times, for the
      message itself and its three retries; whatever is lost or crashes. */
  lemma FailedAfterFourTries(E: set<Edge>, roots: set<Id>, s: State, acts: seq<Action>, t: State, id: nat)
    requires Init(E, roots, s) && TOPIC in s.q.topics && IsRun(E, s, acts, t)
    requires id in t.q.queue && t.q.queue[id].status == Q.Failed
    ensures id in t.q.calls && t.q.calls[id] == 4
  {
    hide Local, IsRun, Q.IsRun, Released;
    var qacts := RunIsQueueRun(E, s, acts, t);
    InitLocal(E, roots, s);
    RunKeepsLocal(E, roots, s, acts, t);
    MessageAsks(E, roots, t, id);
    Q.FailedAfterAllTries(s.q, qacts, t.q, id);
  }

  lemma MessageAsks(E: set<Edge>, roots: set<Id>, s: State, id: nat)
    requires Local(E, roots, s) && id in s.q.queue
    ensures s.q.queue[id].topic == TOPIC && s.q.queue[id].maxRetry == 3
  {
    assert MessageOk(E, roots, s, id);
  }

  lemma {:induction false} RunDecreases(E: set<Edge>, roots: set<Id>, s: State, acts: seq<Action>, t: State)
    requires Acyclic(E) && Local(E, roots, s) && IsRun(E, s, acts, t)
    ensures ProgressCount(acts) + Measure(E, t) <= Measure(E, s)
    decreases |acts|
  {
    hide Local, Measure, Enabled, Apply;
    if acts != [] {
      StepKeepsLocal(E, roots, s, acts[0]);
      StepDecreases(E, roots, s, acts[0]);
      RunDecreases(E, roots, Apply(E, s, acts[0]), acts[1..], t);
    }
  }

  /** Whatever batches there are, no run makes more progress steps than queueing their roots
      and all tries that follow can cost. */
  lemma EveryRunTerminates(E: set<Edge>, roots: set<Id>, s: State, acts: seq<Action>, t: State)
    requires Acyclic(E) && Init(E, roots, s) && IsRun(E, s, acts, t)
    ensures ProgressCount(acts) <= Total(PublishCosts(E, roots))
  {
    InitLocal(E, roots, s);
    RunDecreases(E, roots, s, acts, t);
    InitMeasure(E, roots, s);
  }

  lemma InitMeasure(E: set<Edge>, roots: set<Id>, s: State)
    requires Acyclic(E) && Init(E, roots, s)
    ensures Measure(E, s) == Total(PublishCosts(E, roots))
  {
    hide Cost;
    assert MessageWeights(E, s.q.queue) == map[];
    TotalZero(WorkWeights(E, s));
  }

  // ---- a run stops only when nothing is left to do ----

  ghost predicate Quiescent(s: State) {
    && (forall w :: w in s.q.workers ==> s.q.workers[w] == Q.Idle)
    && (forall id :: id in s.q.queue ==> s.q.queue[id].status != Q.Pending)
  }

  /** A progress step in which nothing fails, crashes or gets lost. */
  ghost predicate Smooth(a: Action) {
    match a
    case Queue(qa) =>
      (match qa
       case Fetch(_, _, _) => true
       case Lookup(_, lost) => !lost
       case Settle(_, lost) => !lost
       case _ => false)
    case AbortWrite(_, lost) => !lost
    case Fail(_) => false
    case Insert(_) => false
    case _ => true
  }

  /** A claim while nobody else holds a lock. */
  ghost predicate LocksNothing(a: Action) {
    a.Queue? && a.a.Fetch? ==> a.a.locked == {}
  }

  ghost function AllRows(E: set<Edge>, inst: Instances, x: Id): set<Row> {
    set e, f | e in E && f in E && e.0 == x && f.1 == e.1 && f.0 in inst
      :: Row(e.1, f.0, inst[f.0].status, inst[f.0].executeTime)
  }

  lemma {:induction false} Enumerate(rows: set<Row>) returns (list: seq<Row>)
    ensures forall r :: r in list <==> r in rows
    decreases |rows|
  {
    if rows == {} {
      list := [];
    } else {
      var r :| r in rows;
      var rest := Enumerate(rows - {r});
      list := [r] + rest;
    }
  }

  lemma RowsExist(E: set<Edge>, inst: Instances, x: Id) returns (rows: seq<Row>)
    ensures IsRows(E, inst, x, rows)
  {
    rows := Enumerate(AllRows(E, inst, x));
    forall r: Row
      ensures r in AllRows(E, inst, x) <==> && (x, r.downstream) in E && (r.upstream, r.downstream) in E
                                            && r.upstream in inst && r.upstreamStatus == inst[r.upstream].status
                                            && r.executeTime == inst[r.upstream].executeTime
    {
      if (x, r.downstream) in E && (r.upstream, r.downstream) in E {
        assert (x, r.downstream).0 == x && (r.upstream, r.downstream).1 == (x, r.downstream).1;
      }
    }
  }

  /** The answer to a message whose instance is not stored. */
  ghost predicate Unloadable(s: State, a: Action) {
    a.Fail? && AtStep(s, a.w) && PayloadOf(s, a.w) !in s.instances
  }

  lemma HandlerGoesOn(E: set<Edge>, roots: set<Id>, s: State, w: nat) returns (a: Action)
    requires Local(E, roots, s) && w in s.steps
    ensures (Smooth(a) || Unloadable(s, a)) && Progress(a) && !a.QueueRoot? && LocksNothing(a) && Enabled(E, s, a)
  {
    assert WorkerOk(E, s, w) && Q.WorkerOk(s.q, w);
    match s.steps[w] {
      case Counting => a := Count(w);
      case Aborting => a := AbortWrite(w, false);
      case Loading => a := if PayloadOf(s, w) in s.instances then Load(w) else Fail(w);
      case Writing => a := Write(w);
      case Querying =>
        var rows := RowsExist(E, s.instances, PayloadOf(s, w));
        a := Query(w, rows);
      case Publishing(todo) =>
        if todo == map[] {
          a := Finish(w);
        } else {
          var k :| k in todo.Keys;
          a := Publish(w, k, 0);
        }
    }
  }

  /** Unless everything is quiescent, some worker can go on, once enough time has passed and
      without any row being locked by anyone. Nothing need fail but the handler of a message
      whose instance is not stored. */
  lemma GoesOn(E: set<Edge>, roots: set<Id>, s: State) returns (elapsed: nat, a: Action)
    requires Local(E, roots, s) && s.q.workers != map[] && !Quiescent(s)
    ensures (Smooth(a) || Unloadable(s, a)) && Progress(a) && !a.QueueRoot? && LocksNothing(a)
    ensures Enabled(E, Apply(E, s, Queue(Q.Tick(elapsed))), a)
  {
    hide Local;
    if w :| w in s.q.workers && s.q.workers[w].Busy? {
      hide Smooth, Unloadable, Progress, LocksNothing, Enabled, Apply;
      elapsed := 0;
      a := BusyGoesOn(E, roots, s, w);
      NoTick(E, s);
    } else {
      hide Apply, Q.Apply, Q.Claimable;
      var id, w;
      elapsed, id, w := EarliestIsClaimable(s.q);
      a := Queue(Q.Fetch(w, id, {}));
      TickIs(E, s, elapsed);
    }
  }

  lemma TickIs(E: set<Edge>, s: State, elapsed: nat)
    ensures Enabled(E, s, Queue(Q.Tick(elapsed)))
    ensures Apply(E, s, Queue(Q.Tick(elapsed))) == s.(q := s.q.(now := s.q.now + elapsed))
  {
  }

  lemma NoTick(E: set<Edge>, s: State)
    ensures Enabled(E, s, Queue(Q.Tick(0))) && Apply(E, s, Queue(Q.Tick(0))) == s
  {
    TickIs(E, s, 0);
  }

  /** With idle workers only, the earliest pending row can be claimed once it is due. */
  lemma EarliestIsClaimable(q: Q.QueueState) returns (elapsed: nat, id: nat, w: nat)
    requires q.workers != map[] && forall v :: v in q.workers ==> q.workers[v] == Q.Idle
    requires exists k :: k in q.queue && q.queue[k].status == Q.Pending
    ensures w in q.workers && q.workers[w] == Q.Idle && Q.Claimable(q.queue, q.now + elapsed, {}, id)
  {
    var pending := set k | k in q.queue && q.queue[k].status == Q.Pending;
    var some :| some in q.queue && q.queue[some].status == Q.Pending;
    assert some in pending;
    id := Earliest(q.queue, pending);
    assert q.workers.Keys != {};
    w :| w in q.workers.Keys;
    var wait := q.queue[id].executeTime - q.now;
    elapsed := if wait > 0 then wait else 0;
  }

  lemma {:induction false} Earliest(q: Q.Queue, ids: set<nat>) returns (id: nat)
    requires ids != {} && ids <= q.Keys
    ensures id in ids && forall k :: k in ids ==> q[id].executeTime <= q[k].executeTime
    decreases |ids|
  {
    id :| id in ids;
    if ids != {id} {
      assert ids - {id} != {};
      var other := Earliest(q, ids - {id});
      if q[other].executeTime < q[id].executeTime {
        id := other;
      }
    }
  }

  lemma StuckOnlyWhenQuiescent(E: set<Edge>, roots: set<Id>, s: State)
    requires Local(E, roots, s) && s.q.workers != map[] && !Quiescent(s)
    ensures exists elapsed: nat, a ::
              && (Smooth(a) || Unloadable(s, a)) && Progress(a) && LocksNothing(a)
              && Enabled(E, Apply(E, s, Queue(Q.Tick(elapsed))), a)
  {
    var elapsed, a := GoesOn(E, roots, s);
  }

  lemma BusyGoesOn(E: set<Edge>, roots: set<Id>, s: State, w: nat) returns (a: Action)
    requires Local(E, roots, s) && w in s.q.workers && s.q.workers[w].Busy?
    ensures (Smooth(a) || Unloadable(s, a)) && Progress(a) && !a.QueueRoot? && LocksNothing(a) && Enabled(E, s, a)
  {
    assert Q.WorkerOk(s.q, w) && WorkerOk(E, s, w);
    match s.q.workers[w].phase {
      case Claimed => a := Queue(Q.Lookup(w, false));
      case Called => a := HandlerGoesOn(E, roots, s, w);
      case Returned(_) => a := Queue(Q.Settle(w, false));
    }
  }
}
