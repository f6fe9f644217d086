/** What every interleaving of the workflow keeps: an instance is queued only when it is a
    queued root or has upstreams that all succeeded, a message that settled as successful
    has run its instance, and no success is ever taken back. */
module WorkflowSafety {
  import opened Common
  import opened Digraph
  import opened InstanceLinks
  import opened WorkflowProtocol
  import Q = DelayQueue

  /** The roots queued so far. */
  ghost function Started(roots: set<Id>, s: State): set<Id> {
    roots - s.waiting
  }

  /** Those of them whose rows are stored. */
  ghost function Begun(roots: set<Id>, s: State): set<Id> {
    Started(roots, s) * s.instances.Keys
  }

  ghost predicate Released(E: set<Edge>, started: set<Id>, inst: Instances, x: Id) {
    x in started || AllUpsDone(E, inst, x)
  }

  ghost predicate HasMessage(s: State, x: Id) {
    exists id :: id in s.q.queue && s.q.queue[id].payload == x
  }

  ghost predicate MessageOk(E: set<Edge>, roots: set<Id>, s: State, id: nat) {
    && id in s.q.queue
    && s.q.queue[id].topic == TOPIC && s.q.queue[id].maxRetry == MAX_RETRY
    && Released(E, Started(roots, s), s.instances, s.q.queue[id].payload)
    && (s.q.queue[id].status == Q.Success ==> Done(s.instances, s.q.queue[id].payload))
  }

  ghost predicate StepOk(E: set<Edge>, s: State, step: Step, x: Id) {
    match step
    case Counting => true
    case Aborting => false
    case Loading => true
    case Writing => x in s.instances
    case Querying => Done(s.instances, x)
    case Publishing(todo) =>
      Done(s.instances, x) && forall k :: k in todo ==> (x, k) in E && AllUpsDone(E, s.instances, k)
  }

  ghost predicate WorkerOk(E: set<Edge>, s: State, w: nat) {
    && w in s.q.workers
    && (w in s.steps <==> s.q.workers[w].Busy? && s.q.workers[w].phase == Q.Called)
    && (w in s.steps ==> StepOk(E, s, s.steps[w], s.q.workers[w].msg.payload))
    && (s.q.workers[w].Busy? && s.q.workers[w].phase == Q.Returned(true) ==>
          Done(s.instances, s.q.workers[w].msg.payload))
  }

  /** No code path writes Waiting or Running, so the abort branch is never taken. */
  ghost predicate StatusesOk(s: State) {
    forall x :: x in s.instances ==> s.instances[x].status == NotReady || s.instances[x].status == Success
  }

  ghost predicate Local(E: set<Edge>, roots: set<Id>, s: State) {
    && Q.Inv(s.q)
    && s.steps.Keys <= s.q.workers.Keys
    && (forall w :: w in s.q.workers ==> WorkerOk(E, s, w))
    && (forall id :: id in s.q.queue ==> MessageOk(E, roots, s, id))
    && StatusesOk(s) && LinesKnown(E, s.instances)
    && s.waiting <= roots
    && (forall x :: Done(s.instances, x) ==> HasMessage(s, x))
    && forall r :: r in Started(roots, s) ==> HasMessage(s, r)
  }

  // ---- what the kinds of steps change ----

  ghost function Actor(a: Action): Option<nat> {
    match a
    case Queue(qa) =>
      (match qa
       case Fetch(w, _, _) => Some(w)
       case Lookup(w, _) => Some(w)
       case Return(w, _) => Some(w)
       case Settle(w, _) => Some(w)
       case Crash(w) => Some(w)
       case _ => None)
    case Count(w) => Some(w)
    case AbortWrite(w, _) => Some(w)
    case Load(w) => Some(w)
    case Write(w) => Some(w)
    case Query(w, _) => Some(w)
    case Publish(w, _, _) => Some(w)
    case Finish(w) => Some(w)
    case Fail(w) => Some(w)
    case QueueRoot(_, _, _) => None
    case Insert(_) => None
  }

  lemma QueueStepIs(E: set<Edge>, s: State, a: Action)
    requires Enabled(E, s, a) && a.Queue?
    ensures Q.Enabled(s.q, a.a) && !a.a.Publish? && !a.a.Return?
    ensures var t := Apply(E, s, a);
            && t.q == Q.Apply(s.q, a.a) && t.instances == s.instances && t.waiting == s.waiting
            && t.steps == (if a.a.Lookup? && s.q.workers[a.a.w].msg.topic in s.q.topics then s.steps[a.a.w := Counting]
                           else if a.a.Crash? then s.steps - {a.a.w}
                           else s.steps)
  {
    hide Q.Apply;
  }

  ghost predicate Adds(a: Action) {
    a.Publish? || a.QueueRoot?
  }

  /** The row that a publish adds. */
  ghost function AddedRow(s: State, a: Action): Q.DelayMessage
    requires a.QueueRoot? || (a.Publish? && a.w in s.steps && s.steps[a.w].Publishing? && a.k in s.steps[a.w].todo)
  {
    if a.QueueRoot? then Q.DelayMessage(a.node, TOPIC, a.time, Q.Pending, a.r, 0, MAX_RETRY)
    else Q.DelayMessage(a.k, TOPIC, s.steps[a.w].todo[a.k] + a.drift, Q.Pending, a.k, 0, MAX_RETRY)
  }

  lemma AddStepIs(E: set<Edge>, s: State, a: Action)
    requires Enabled(E, s, a) && Adds(a)
    ensures a.Publish? ==> AtStep(s, a.w) && s.steps[a.w].Publishing? && a.k in s.steps[a.w].todo
    ensures a.QueueRoot? ==> a.r in s.waiting
    ensures var t := Apply(E, s, a);
            && t.q.queue == s.q.queue[s.q.nextId := AddedRow(s, a)] && t.instances == s.instances
            && t.waiting == s.waiting - (if a.QueueRoot? then {a.r} else {})
            && t.q.workers == s.q.workers && t.q.topics == s.q.topics
  {
  }

  lemma InsertStepIs(E: set<Edge>, s: State, a: Action)
    requires Enabled(E, s, a) && a.Insert?
    ensures Insertable(E, s, a.batch) && Apply(E, s, a) == s.(instances := s.instances + a.batch)
  {
  }

  ghost predicate Handles(a: Action) {
    !a.Queue? && !Adds(a) && !a.Insert?
  }

  lemma HandlerStepIs(E: set<Edge>, s: State, a: Action)
    requires Enabled(E, s, a) && Handles(a)
    ensures Actor(a).Some? && AtStep(s, Actor(a).value)
    ensures var t := Apply(E, s, a);
            && t.q.queue == s.q.queue && t.waiting == s.waiting && t.q.topics == s.q.topics
            && (a.Write? ==> t.instances == WithStatus(s.instances, PayloadOf(s, a.w), Success))
            && (!a.Write? && !a.AbortWrite? ==> t.instances == s.instances)
  {
    hide IsRows, Ready, RunningOthers;
  }

  ghost predicate Leaves(a: Action) {
    a.Finish? || a.Fail? || a.AbortWrite?
  }

  /** Where a handler step finds its worker and where it takes it. */
  lemma HandlerMoves(E: set<Edge>, s: State, a: Action, w: nat)
    requires Enabled(E, s, a) && Handles(a) && Actor(a) == Some(w)
    ensures AtStep(s, w)
    ensures a.Count? ==> s.steps[w] == Counting
    ensures a.AbortWrite? ==> s.steps[w] == Aborting
    ensures a.Load? ==> s.steps[w] == Loading && PayloadOf(s, w) in s.instances
    ensures a.Write? ==> s.steps[w] == Writing
    ensures a.Query? ==> s.steps[w] == Querying && IsRows(E, s.instances, PayloadOf(s, w), a.rows)
    ensures a.Finish? ==> s.steps[w] == Publishing(map[])
    ensures var t := Apply(E, s, a);
            if Leaves(a) then
              && t.q.workers == s.q.workers[w := s.q.workers[w].(phase := Q.Returned(!a.Fail?))]
              && t.steps == s.steps - {w}
            else
              && t.q == s.q
              && t.steps == s.steps[w := if a.Count? then
                                           (if RunningOthers(s.instances, PayloadOf(s, w)) != {} then Aborting
                                            else Loading)
                                         else if a.Load? then Writing
                                         else if a.Write? then Querying
                                         else Publishing(Ready(a.rows))]
  {
    hide IsRows, Ready, RunningOthers;
  }

  // ---- monotone facts ----

  /** A step never takes back a success, a message or an instance. */
  ghost predicate Grows(s: State, t: State) {
    && t.instances.Keys >= s.instances.Keys && t.waiting <= s.waiting
    && (forall x :: Done(s.instances, x) ==> Done(t.instances, x))
    && (forall id :: id in s.q.queue ==> id in t.q.queue && Q.RowFollows(s.q.queue[id], t.q.queue[id]))
  }

  lemma NobodyElseRuns(s: State, x: Id)
    requires StatusesOk(s)
    ensures RunningOthers(s.instances, x) == {}
  {
  }

  lemma NobodyRuns(E: set<Edge>, roots: set<Id>, s: State, x: Id)
    requires Local(E, roots, s)
    ensures RunningOthers(s.instances, x) == {}
  {
    hide WorkerOk, MessageOk, HasMessage;
    NobodyElseRuns(s, x);
  }

  lemma GrowsKeeps(E: set<Edge>, roots: set<Id>, s: State, t: State, x: Id)
    requires Grows(s, t)
    ensures AllUpsDone(E, s.instances, x) ==> AllUpsDone(E, t.instances, x)
    ensures Released(E, Started(roots, s), s.instances, x) ==> Released(E, Started(roots, t), t.instances, x)
    ensures HasMessage(s, x) ==> HasMessage(t, x)
  {
    if HasMessage(s, x) {
      var id :| id in s.q.queue && s.q.queue[id].payload == x;
      assert id in t.q.queue && Q.RowFollows(s.q.queue[id], t.q.queue[id]);
    }
  }

  /** The abort branch is dead: the handler never stands at it. */
  lemma NeverAborts(E: set<Edge>, roots: set<Id>, s: State, a: Action)
    requires Local(E, roots, s) && Enabled(E, s, a)
    ensures !a.AbortWrite?
  {
    forall w | w in s.steps
      ensures s.steps[w] != Aborting
    {
      assert WorkerOk(E, s, w);
    }
  }

  lemma StepGrows(E: set<Edge>, roots: set<Id>, s: State, a: Action)
    requires Local(E, roots, s) && Enabled(E, s, a)
    ensures Grows(s, Apply(E, s, a))
  {
    hide WorkerOk, MessageOk, HasMessage, StatusesOk, Apply, Enabled, Q.Apply, Q.Enabled, Q.Inv;
    if a.Queue? {
      QueueStepIs(E, s, a);
      forall id | id in s.q.queue
        ensures id in Apply(E, s, a).q.queue && Q.RowFollows(s.q.queue[id], Apply(E, s, a).q.queue[id])
      {
        Q.StepFollows(s.q, a.a, id);
      }
    } else if Adds(a) {
      AddStepIs(E, s, a);
      FreshId(E, roots, s);
    } else if a.Insert? {
      InsertStepIs(E, s, a);
    } else {
      HandlerStepIs(E, s, a);
      NeverAborts(E, roots, s, a);
    }
  }

  lemma FreshId(E: set<Edge>, roots: set<Id>, s: State)
    requires Local(E, roots, s)
    ensures s.q.nextId !in s.q.queue
  {
    hide WorkerOk, MessageOk, HasMessage, StatusesOk;
    assert forall id :: id in s.q.queue ==> Q.RowOk(s.q, id);
  }

  // ---- each part of the invariant ----

  lemma StatusesKept(E: set<Edge>, roots: set<Id>, s: State, a: Action)
    requires Local(E, roots, s) && Enabled(E, s, a)
    ensures StatusesOk(Apply(E, s, a))
  {
    NeverAborts(E, roots, s, a);
  }

  lemma QueueInvKept(E: set<Edge>, roots: set<Id>, s: State, a: Action)
    requires Local(E, roots, s) && Enabled(E, s, a)
    ensures Q.Inv(Apply(E, s, a).q)
  {
    hide WorkerOk, MessageOk, HasMessage, StatusesOk, Q.Inv;
    if a.Queue? {
      Q.StepKeepsInv(s.q, a.a);
    } else if a.Publish? {
      Q.StepKeepsInv(s.q, PublishAction(s, a.w, a.k, a.drift));
    } else if a.QueueRoot? {
      Q.StepKeepsInv(s.q, RootAction(a.r, a.node, a.time));
    } else if a.Finish? || a.AbortWrite? {
      Q.StepKeepsInv(s.q, Q.Return(a.w, true));
    } else if a.Fail? {
      Q.StepKeepsInv(s.q, Q.Return(a.w, false));
    }
  }

  lemma MessageKept(E: set<Edge>, roots: set<Id>, s: State, a: Action, id: nat)
    requires Local(E, roots, s) && Enabled(E, s, a) && id in Apply(E, s, a).q.queue
    ensures MessageOk(E, roots, Apply(E, s, a), id)
  {
    hide Apply, Local, AllUpsDone, Released, Enabled, HasMessage;
    if id !in s.q.queue {
      PublishedReleased(E, roots, s, a, id);
    } else {
      assert MessageOk(E, roots, s, id) by {
        LocalMessage(E, roots, s, id);
      }
      StepGrows(E, roots, s, a);
      GrowsKeeps(E, roots, s, Apply(E, s, a), s.q.queue[id].payload);
      SettledIsDone(E, roots, s, a, id);
    }
  }

  lemma LocalMessage(E: set<Edge>, roots: set<Id>, s: State, id: nat)
    requires Local(E, roots, s) && id in s.q.queue
    ensures MessageOk(E, roots, s, id)
  {
  }

  lemma SettledIsDone(E: set<Edge>, roots: set<Id>, s: State, a: Action, id: nat)
    requires Local(E, roots, s) && Enabled(E, s, a) && id in s.q.queue
    ensures id in Apply(E, s, a).q.queue && Apply(E, s, a).q.queue[id].status == Q.Success ==>
              Done(s.instances, s.q.queue[id].payload)
  {
    hide AllUpsDone, HasMessage, StatusesOk, Apply, Enabled, Q.Apply, Q.Enabled, Released, StepOk, Done;
    LocalMessage(E, roots, s, id);
    if a.Queue? {
      QueueStepIs(E, s, a);
      Q.SuccessIsSettled(s.q, a.a, id);
      if a.a.Settle? && Q.Holds(s.q, a.a.w, id) {
        assert WorkerOk(E, s, a.a.w) && Q.WorkerOk(s.q, a.a.w);
      }
    } else if Adds(a) {
      AddStepIs(E, s, a);
      FreshId(E, roots, s);
    } else if a.Insert? {
      InsertStepIs(E, s, a);
    } else {
      HandlerStepIs(E, s, a);
    }
  }

  lemma PublishedReleased(E: set<Edge>, roots: set<Id>, s: State, a: Action, id: nat)
    requires Local(E, roots, s) && Enabled(E, s, a) && id in Apply(E, s, a).q.queue && id !in s.q.queue
    ensures Adds(a) && id == s.q.nextId
    ensures MessageOk(E, roots, Apply(E, s, a), id)
  {
    hide HasMessage, AllUpsDone, StatusesOk, LinesKnown, Done, Q.Inv, Apply, Enabled, Q.Apply, Q.Enabled;
    if a.Queue? {
      QueueStepIs(E, s, a);
      Q.OnlyPublishAdds(s.q, a.a);
    } else if Adds(a) {
      AddStepIs(E, s, a);
      if a.Publish? {
        assert WorkerOk(E, s, a.w);
      }
    } else if a.Insert? {
      InsertStepIs(E, s, a);
    } else {
      HandlerStepIs(E, s, a);
    }
  }

  lemma DoneHasMessage(E: set<Edge>, roots: set<Id>, s: State, a: Action, x: Id)
    requires Local(E, roots, s) && Enabled(E, s, a) && Done(Apply(E, s, a).instances, x)
    ensures HasMessage(Apply(E, s, a), x)
  {
    hide AllUpsDone, HasMessage, Apply, Enabled, Released, StepOk, MessageOk, StatusesOk;
    NeverAborts(E, roots, s, a);
    StepGrows(E, roots, s, a);
    GrowsKeeps(E, roots, s, Apply(E, s, a), x);
    if !Done(s.instances, x) {
      if a.Queue? {
        QueueStepIs(E, s, a);
      } else if Adds(a) {
        AddStepIs(E, s, a);
      } else if a.Insert? {
        InsertStepIs(E, s, a);
      } else {
        HandlerStepIs(E, s, a);
        assert Q.WorkerOk(s.q, a.w);
        HeldMessage(s, a.w);
      }
    }
  }

  lemma RootHasMessage(E: set<Edge>, roots: set<Id>, s: State, a: Action, r: Id)
    requires Local(E, roots, s) && Enabled(E, s, a) && r in Started(roots, Apply(E, s, a))
    ensures HasMessage(Apply(E, s, a), r)
  {
    if r in Started(roots, s) {
      hide Enabled, Apply, HasMessage, WorkerOk, MessageOk;
      StepGrows(E, roots, s, a);
      GrowsKeeps(E, roots, s, Apply(E, s, a), r);
    } else {
      assert a.QueueRoot? && a.r == r;
      assert Apply(E, s, a).q.queue[s.q.nextId].payload == r;
    }
  }

  lemma HeldMessage(s: State, w: nat)
    requires Q.WorkerOk(s.q, w) && s.q.workers[w].Busy?
    ensures HasMessage(s, s.q.workers[w].msg.payload)
  {
    assert s.q.queue[s.q.workers[w].id].payload == s.q.workers[w].msg.payload;
  }

  ghost predicate SameAt(s: State, t: State, w: nat) {
    && (w in t.q.workers <==> w in s.q.workers) && (w in t.steps <==> w in s.steps)
    && (w in s.q.workers ==> t.q.workers[w] == s.q.workers[w])
    && (w in s.steps ==> t.steps[w] == s.steps[w])
  }

  lemma OthersStandStill(E: set<Edge>, s: State, a: Action, w: nat)
    requires Enabled(E, s, a) && Actor(a) != Some(w)
    ensures SameAt(s, Apply(E, s, a), w)
  {
    if a.Queue? {
      QueueOthers(E, s, a, w);
    } else {
      HandlerOthers(E, s, a, w);
    }
  }

  lemma QueueOthers(E: set<Edge>, s: State, a: Action, w: nat)
    requires Enabled(E, s, a) && a.Queue? && Actor(a) != Some(w)
    ensures SameAt(s, Apply(E, s, a), w)
  {
    hide Q.AfterError, Q.Claimable;
  }

  lemma HandlerOthers(E: set<Edge>, s: State, a: Action, w: nat)
    requires Enabled(E, s, a) && !a.Queue? && Actor(a) != Some(w)
    ensures SameAt(s, Apply(E, s, a), w)
  {
    hide IsRows, Ready, RunningOthers;
  }

  /** A message whose instance is not stored never gets one: new rows have new ids. */
  lemma UnknownStaysUnknown(E: set<Edge>, roots: set<Id>, s: State, a: Action, id: nat)
    requires Local(E, roots, s) && Enabled(E, s, a) && id in s.q.queue && s.q.queue[id].payload !in s.instances
    ensures s.q.queue[id].payload !in Apply(E, s, a).instances
  {
    hide Local, Apply, Enabled;
    NeverAborts(E, roots, s, a);
    if a.Queue? {
      QueueStepIs(E, s, a);
    } else if Adds(a) {
      AddStepIs(E, s, a);
    } else if a.Insert? {
      InsertStepIs(E, s, a);
    } else {
      HandlerStepIs(E, s, a);
    }
  }

  lemma StepOkGrows(E: set<Edge>, roots: set<Id>, s: State, t: State, step: Step, x: Id)
    requires Grows(s, t) && StepOk(E, s, step, x)
    ensures StepOk(E, t, step, x)
  {
    if step.Publishing? {
      forall k | k in step.todo
        ensures AllUpsDone(E, t.instances, k)
      {
        GrowsKeeps(E, roots, s, t, k);
      }
    }
  }

  /** The rows of the finished instance say that every upstream of a ready one succeeded. */
  lemma ReadyIsReleased(E: set<Edge>, inst: Instances, x: Id, rows: seq<Row>, k: Id)
    requires IsRows(E, inst, x, rows) && x in inst && forall u :: u in Ups(E, k) ==> u in inst
    ensures k in Ready(rows) <==> (x, k) in E && AllUpsDone(E, inst, k)
  {
    if k in Ready(rows) {
      var r :| r in rows && r.downstream == k;
      assert (x, k).0 == x;
      assert x in Ups(E, k);
      forall u | u in Ups(E, k)
        ensures Done(inst, u)
      {
        var row := Row(k, u, inst[u].status, inst[u].executeTime);
        assert row in rows;
      }
    }
    if (x, k) in E && AllUpsDone(E, inst, k) {
      assert x in Ups(E, k);
      assert Row(k, x, inst[x].status, inst[x].executeTime) in rows;
      forall r | r in rows && r.downstream == k
        ensures r.upstreamStatus == Success
      {
        assert r.upstream in Ups(E, k);
      }
    }
  }

  lemma ActorKept(E: set<Edge>, roots: set<Id>, s: State, a: Action, w: nat)
    requires Local(E, roots, s) && Enabled(E, s, a) && Actor(a) == Some(w)
    ensures WorkerOk(E, Apply(E, s, a), w)
  {
    hide *;
    if a.Queue? {
      QueueActorKept(E, roots, s, a, w);
    } else {
      HandlerKept(E, roots, s, a, w);
    }
  }

  lemma QueueActorKept(E: set<Edge>, roots: set<Id>, s: State, a: Action, w: nat)
    requires Local(E, roots, s) && Enabled(E, s, a) && a.Queue? && Actor(a) == Some(w)
    ensures WorkerOk(E, Apply(E, s, a), w)
  {
    hide AllUpsDone, HasMessage, Released, MessageOk, StatusesOk, LinesKnown, Q.Inv, Apply, Enabled, Done, Q.AfterError,
         Q.Claimable;
    QueueStepIs(E, s, a);
    assert WorkerOk(E, s, w);
  }

  lemma HandlerKept(E: set<Edge>, roots: set<Id>, s: State, a: Action, w: nat)
    requires Local(E, roots, s) && Enabled(E, s, a) && Actor(a) == Some(w) && !a.Queue?
    ensures WorkerOk(E, Apply(E, s, a), w)
  {
    hide AllUpsDone, HasMessage, IsRows, Q.Inv, Released, Apply, Enabled, MessageOk, Ready;
    NeverAborts(E, roots, s, a);
    if a.Publish? {
      PublishKept(E, roots, s, a, w);
    } else {
      HandlerStepIs(E, s, a);
      HandlerMoves(E, s, a, w);
      assert WorkerOk(E, s, w);
      var x := PayloadOf(s, w);
      if a.Query? {
        QueryReleases(E, s, x, a.rows);
      } else if a.Count? {
        NobodyElseRuns(s, x);
      }
    }
  }

  lemma PublishKept(E: set<Edge>, roots: set<Id>, s: State, a: Action, w: nat)
    requires Local(E, roots, s) && Enabled(E, s, a) && a.Publish? && a.w == w
    ensures WorkerOk(E, Apply(E, s, a), w)
  {
    hide AllUpsDone, HasMessage, Q.Inv, Released, MessageOk, StatusesOk;
    assert WorkerOk(E, s, w);
  }

  lemma ReadyHasEdge(E: set<Edge>, inst: Instances, x: Id, rows: seq<Row>, k: Id)
    requires IsRows(E, inst, x, rows) && k in Ready(rows)
    ensures (x, k) in E
  {
  }

  lemma UpsStored(E: set<Edge>, inst: Instances, x: Id, k: Id)
    requires LinesKnown(E, inst) && x in inst && (x, k) in E
    ensures k in inst && forall u :: u in Ups(E, k) ==> u in inst
  {
    assert (x, k).0 in inst;
  }

  lemma QueryReleases(E: set<Edge>, s: State, x: Id, rows: seq<Row>)
    requires IsRows(E, s.instances, x, rows) && x in s.instances && LinesKnown(E, s.instances)
    ensures forall k :: k in Ready(rows) ==> (x, k) in E && AllUpsDone(E, s.instances, k)
  {
    hide IsRows, Ready, AllUpsDone, LinesKnown;
    forall k | k in Ready(rows)
      ensures (x, k) in E && AllUpsDone(E, s.instances, k)
    {
      ReadyHasEdge(E, s.instances, x, rows, k);
      UpsStored(E, s.instances, x, k);
      ReadyIsReleased(E, s.instances, x, rows, k);
    }
  }

  lemma WorkerKept(E: set<Edge>, roots: set<Id>, s: State, a: Action, w: nat)
    requires Local(E, roots, s) && Enabled(E, s, a) && w in Apply(E, s, a).q.workers
    ensures WorkerOk(E, Apply(E, s, a), w)
  {
    hide Apply, Enabled, AllUpsDone, StepOk, HasMessage, Released, MessageOk;
    if Actor(a) == Some(w) {
      ActorKept(E, roots, s, a, w);
    } else {
      OthersStandStill(E, s, a, w);
      StepGrows(E, roots, s, a);
      assert WorkerOk(E, s, w);
      if w in s.steps {
        StepOkGrows(E, roots, s, Apply(E, s, a), s.steps[w], s.q.workers[w].msg.payload);
      }
    }
  }

  lemma StepKeepsLocal(E: set<Edge>, roots: set<Id>, s: State, a: Action)
    requires Local(E, roots, s) && Enabled(E, s, a)
    ensures Local(E, roots, Apply(E, s, a)) && Grows(s, Apply(E, s, a))
  {
    hide Q.Inv, WorkerOk, MessageOk, StatusesOk, Done, HasMessage, Q.RowFollows;
    var t := Apply(E, s, a);
    QueueInvKept(E, roots, s, a);
    StatusesKept(E, roots, s, a);
    StepGrows(E, roots, s, a);
    forall r | r in Started(roots, t)
      ensures HasMessage(t, r)
    {
      RootHasMessage(E, roots, s, a, r);
    }
    forall w | w in t.q.workers
      ensures WorkerOk(E, t, w)
    {
      WorkerKept(E, roots, s, a, w);
    }
    forall id | id in t.q.queue
      ensures MessageOk(E, roots, t, id)
    {
      MessageKept(E, roots, s, a, id);
    }
    forall x | Done(t.instances, x)
      ensures HasMessage(t, x)
    {
      DoneHasMessage(E, roots, s, a, x);
    }
  }

  /** A message whose instance is not stored, because its batch was queued and never
      committed, never succeeds: the instance never comes, so it is never loaded. */
  lemma {:induction false} UnstoredNeverRuns(E: set<Edge>, roots: set<Id>, s: State, acts: seq<Action>, t: State,
                                             id: nat)
    requires Local(E, roots, s) && IsRun(E, s, acts, t)
    requires id in s.q.queue && s.q.queue[id].payload !in s.instances
    ensures id in t.q.queue && t.q.queue[id].payload == s.q.queue[id].payload
    ensures t.q.queue[id].payload !in t.instances && t.q.queue[id].status != Q.Success
    decreases |acts|
  {
    hide Enabled, Apply, Local;
    if acts == [] {
      LocalMessage(E, roots, s, id);
    } else {
      UnknownStaysUnknown(E, roots, s, acts[0], id);
      StepKeepsLocal(E, roots, s, acts[0]);
      assert Q.RowFollows(s.q.queue[id], Apply(E, s, acts[0]).q.queue[id]);
      UnstoredNeverRuns(E, roots, Apply(E, s, acts[0]), acts[1..], t, id);
    }
  }

  lemma InitLocal(E: set<Edge>, roots: set<Id>, s: State)
    requires Init(E, roots, s)
    ensures Local(E, roots, s)
  {
    Q.InitInv(s.q);
  }
}
