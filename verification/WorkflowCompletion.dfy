/** Settled runs exist: whatever batches are started, the workers can bring them all to an
    end without a failure. */
module WorkflowCompletion {
  import opened Common
  import opened Digraph
  import opened InstanceLinks
  import opened WorkflowProtocol
  import opened WorkflowSafety
  import opened WorkflowResult
  import opened WorkflowTermination
  import Q = DelayQueue

  ghost predicate Held(s: State, id: nat) {
    exists w :: Q.Holds(s.q, w, id)
  }

  /** So far no message of a stored instance has failed, and no running message has lost its
      worker. */
  ghost predicate Unfailed(s: State) {
    && TOPIC in s.q.topics
    && (forall id :: id in s.q.queue ==> RowGood(s, id))
    && forall w :: w in s.q.workers ==> AnswerGood(s, w)
  }

  ghost predicate RowGood(s: State, id: nat) {
    && id in s.q.queue
    && (s.q.queue[id].payload in s.instances ==> s.q.queue[id].status != Q.Failed)
    && (s.q.queue[id].status == Q.Running ==> Held(s, id))
  }

  ghost predicate Answered(work: Q.Work) {
    work.Busy? && work.phase.Returned?
  }

  ghost predicate AnswerGood(s: State, w: nat) {
    && w in s.q.workers
    && (Answered(s.q.workers[w]) && s.q.workers[w].msg.payload in s.instances ==> s.q.workers[w].phase.ok)
  }

  /** Nothing fails but the handler of a message whose instance is not stored. */
  ghost predicate Harmless(s: State, a: Action) {
    Smooth(a) || Unloadable(s, a) || a.Insert? || (a.Queue? && a.a.Tick?)
  }

  lemma AnswersStayGood(E: set<Edge>, roots: set<Id>, s: State, a: Action, w: nat)
    requires Local(E, roots, s) && Unfailed(s) && Enabled(E, s, a) && Harmless(s, a)
    requires w in Apply(E, s, a).q.workers
    ensures AnswerGood(Apply(E, s, a), w)
  {
    if Actor(a) != Some(w) {
      hide Held, Local, Enabled, Apply, Harmless;
      OthersStandStill(E, s, a, w);
      assert AnswerGood(s, w);
      if s.q.workers[w].Busy? && s.q.workers[w].msg.payload !in s.instances {
        HeldRow(E, roots, s, w);
        UnknownStaysUnknown(E, roots, s, a, s.q.workers[w].id);
      }
    } else if a.Queue? {
      hide Held, Local, Enabled, Apply, Q.AfterError;
      QueueStepIs(E, s, a);
      assert AnswerGood(s, w);
    } else if a.Publish? {
      hide Held, Local;
    } else {
      hide Held, Local, Enabled, Apply, RunningOthers, Ready;
      NeverAborts(E, roots, s, a);
      HandlerStepIs(E, s, a);
      HandlerMoves(E, s, a, w);
      WriteKeepsKeys(s.instances, PayloadOf(s, w));
    }
  }

  lemma WriteKeepsKeys(inst: Instances, x: Id)
    ensures WithStatus(inst, x, Success).Keys == inst.Keys
  {
  }

  /** A worker lets go of its message only when it settles it. */
  lemma HolderStays(E: set<Edge>, roots: set<Id>, s: State, a: Action, w: nat, id: nat)
    requires Local(E, roots, s) && Unfailed(s) && Enabled(E, s, a) && Harmless(s, a) && Q.Holds(s.q, w, id)
    ensures Q.Holds(Apply(E, s, a).q, w, id) || (a.Queue? && a.a.Settle? && a.a.w == w)
  {
    hide Held, Local, Apply, Enabled, Q.Apply, RunningOthers, Ready;
    if a.Queue? {
      QueueStepIs(E, s, a);
      Q.HolderLetsGo(s.q, a.a, w, id);
      HeldTopic(E, roots, s, w);
    } else if Adds(a) {
      AddStepIs(E, s, a);
    } else if a.Insert? {
      InsertStepIs(E, s, a);
    } else {
      HandlerMoves(E, s, a, Actor(a).value);
    }
  }

  lemma RowStaysGood(E: set<Edge>, roots: set<Id>, s: State, a: Action, id: nat)
    requires Local(E, roots, s) && Unfailed(s) && Enabled(E, s, a) && Harmless(s, a)
    requires id in Apply(E, s, a).q.queue
    ensures RowGood(Apply(E, s, a), id)
  {
    hide Local, Apply, Enabled, Harmless, Held;
    var t := Apply(E, s, a);
    if t.q.queue[id].payload in t.instances {
      NeverFails(E, roots, s, a, id);
    }
    if t.q.queue[id].status == Q.Running {
      StaysHeld(E, roots, s, a, id);
    }
  }

  lemma NeverFails(E: set<Edge>, roots: set<Id>, s: State, a: Action, id: nat)
    requires Local(E, roots, s) && Unfailed(s) && Enabled(E, s, a) && Harmless(s, a)
    requires id in Apply(E, s, a).q.queue && Apply(E, s, a).q.queue[id].payload in Apply(E, s, a).instances
    ensures Apply(E, s, a).q.queue[id].status != Q.Failed
  {
    hide Apply, Enabled, Q.Apply, Q.Enabled, Local, Held;
    if id in s.q.queue {
      StepGrows(E, roots, s, a);
      assert Q.RowFollows(s.q.queue[id], Apply(E, s, a).q.queue[id]);
      if s.q.queue[id].payload !in s.instances {
        UnknownStaysUnknown(E, roots, s, a, id);
      }
      assert RowGood(s, id);
    }
    if a.Queue? {
      QueueStepIs(E, s, a);
      Q.OnlyPublishAdds(s.q, a.a);
      Q.FailedIsSettled(s.q, a.a, id);
      if (a.a.Lookup? || a.a.Settle?) && Q.Holds(s.q, a.a.w, id) {
        HeldRow(E, roots, s, a.a.w);
        assert AnswerGood(s, a.a.w);
      }
    } else if Adds(a) {
      AddStepIs(E, s, a);
    } else if a.Insert? {
      InsertStepIs(E, s, a);
    } else {
      HandlerStepIs(E, s, a);
    }
  }

  lemma StaysHeld(E: set<Edge>, roots: set<Id>, s: State, a: Action, id: nat)
    requires Local(E, roots, s) && Unfailed(s) && Enabled(E, s, a) && Harmless(s, a)
    requires id in Apply(E, s, a).q.queue && Apply(E, s, a).q.queue[id].status == Q.Running
    ensures Held(Apply(E, s, a), id)
  {
    hide Apply, Enabled, Q.Apply, Q.Enabled, Local;
    var t := Apply(E, s, a);
    if a.Queue? {
      QueueStepIs(E, s, a);
      Q.OnlyPublishAdds(s.q, a.a);
      Q.RunningIsClaimed(s.q, a.a, id);
      if s.q.queue[id].status == Q.Running {
        assert RowGood(s, id);
        var w :| Q.Holds(s.q, w, id);
        HolderStays(E, roots, s, a, w, id);
        if a.a.Settle? && a.a.w == w {
          Q.SettleEnds(s.q, a.a, id);
        }
      }
    } else if Adds(a) {
      AddStepIs(E, s, a);
      FreshId(E, roots, s);
      HeldBefore(E, roots, s, a, id);
    } else if a.Insert? {
      InsertStepIs(E, s, a);
      HeldBefore(E, roots, s, a, id);
    } else {
      HandlerStepIs(E, s, a);
      HeldBefore(E, roots, s, a, id);
    }
  }

  lemma HeldBefore(E: set<Edge>, roots: set<Id>, s: State, a: Action, id: nat)
    requires Local(E, roots, s) && Unfailed(s) && Enabled(E, s, a) && Harmless(s, a) && !a.Queue?
    requires id in s.q.queue && s.q.queue[id].status == Q.Running
    ensures Held(Apply(E, s, a), id)
  {
    hide Local, Apply, Enabled, Harmless;
    assert RowGood(s, id);
    var w :| Q.Holds(s.q, w, id);
    HolderStays(E, roots, s, a, w, id);
  }

  lemma HeldTopic(E: set<Edge>, roots: set<Id>, s: State, w: nat)
    requires Local(E, roots, s) && w in s.q.workers && s.q.workers[w].Busy?
    ensures s.q.workers[w].msg.topic == TOPIC
  {
    hide AllUpsDone, HasMessage, StatusesOk, LinesKnown, Released, WorkerOk;
    assert Q.WorkerOk(s.q, w);
    assert MessageOk(E, roots, s, s.q.workers[w].id);
  }

  lemma TopicsStay(E: set<Edge>, s: State, a: Action)
    requires Enabled(E, s, a) && Harmless(s, a)
    ensures Apply(E, s, a).q.topics == s.q.topics
  {
    hide Apply, Enabled, Q.Apply, Q.Enabled;
    if a.Queue? {
      QueueStepIs(E, s, a);
      Q.WorkersStay(s.q, a.a);
    } else if Adds(a) {
      AddStepIs(E, s, a);
    } else if a.Insert? {
      InsertStepIs(E, s, a);
    } else {
      HandlerStepIs(E, s, a);
    }
  }

  lemma StepStaysUnfailed(E: set<Edge>, roots: set<Id>, s: State, a: Action)
    requires Local(E, roots, s) && Unfailed(s) && Enabled(E, s, a) && Harmless(s, a)
    ensures Unfailed(Apply(E, s, a))
  {
    hide Local, Apply, Enabled, Harmless, RowGood, AnswerGood;
    var t := Apply(E, s, a);
    TopicsStay(E, s, a);
    forall id | id in t.q.queue
      ensures RowGood(t, id)
    {
      RowStaysGood(E, roots, s, a, id);
    }
    forall w | w in t.q.workers
      ensures AnswerGood(t, w)
    {
      AnswersStayGood(E, roots, s, a, w);
    }
  }

  /** From any state without failures the workers can settle everything. */
  lemma {:induction false} Completes(E: set<Edge>, roots: set<Id>, s: State) returns (acts: seq<Action>, t: State)
    requires Acyclic(E) && Local(E, roots, s) && Unfailed(s) && s.q.workers != map[]
    ensures IsRun(E, s, acts, t) && Settled(t) && t.waiting == s.waiting
    decreases Measure(E, s)
  {
    hide Local, Measure, Enabled, Apply, Smooth, Unloadable, Unfailed;
    if Quiescent(s) {
      QuiescentIsSettled(s);
      acts, t := [], s;
      NoAction(E, s);
    } else {
      var elapsed, a := GoesOn(E, roots, s);
      var tick := Queue(Q.Tick(elapsed));
      var m := Ticks(E, roots, s, elapsed);
      SameUnloadable(s, m, a);
      var u := Apply(E, m, a);
      Steps(E, roots, m, a);
      var rest;
      rest, t := Completes(E, roots, u);
      OneAction(E, s, tick);
      Extend(E, s, [tick], m, a);
      Join(E, s, [tick] + [a], u, rest, t);
      acts := [tick] + [a] + rest;
    }
  }

  lemma QuiescentIsSettled(s: State)
    requires Quiescent(s) && Unfailed(s)
    ensures Settled(s)
  {
    forall id | id in s.q.queue && s.q.queue[id].payload in s.instances
      ensures s.q.queue[id].status == Q.Success
    {
      assert RowGood(s, id) && !Held(s, id);
    }
  }

  lemma Ticks(E: set<Edge>, roots: set<Id>, s: State, elapsed: nat) returns (m: State)
    requires Acyclic(E) && Local(E, roots, s) && Unfailed(s)
    ensures Enabled(E, s, Queue(Q.Tick(elapsed))) && m == Apply(E, s, Queue(Q.Tick(elapsed)))
    ensures Local(E, roots, m) && Unfailed(m) && m.q.workers == s.q.workers && m.waiting == s.waiting
    ensures m.steps == s.steps && m.instances == s.instances && m.q.queue == s.q.queue && Measure(E, m) == Measure(E, s)
  {
    var tick := Queue(Q.Tick(elapsed));
    m := Apply(E, s, tick);
    StepKeepsLocal(E, roots, s, tick);
    StepStaysUnfailed(E, roots, s, tick);
    ClockKeepsMeasure(E, s, tick);
  }

  lemma Steps(E: set<Edge>, roots: set<Id>, s: State, a: Action)
    requires Acyclic(E) && Local(E, roots, s) && Unfailed(s) && s.q.workers != map[]
    requires Enabled(E, s, a) && (Smooth(a) || Unloadable(s, a)) && Progress(a) && !a.QueueRoot?
    ensures var t := Apply(E, s, a);
            && Local(E, roots, t) && Unfailed(t) && t.q.workers != map[] && t.waiting == s.waiting
            && Measure(E, t) < Measure(E, s)
  {
    WaitingStays(E, s, a);
    hide Local, Unfailed, Enabled, Apply, Smooth, Unloadable, Measure, Acyclic, Grows;
    StepKeepsLocal(E, roots, s, a);
    StepStaysUnfailed(E, roots, s, a);
    StepDecreases(E, roots, s, a);
    WorkersStay(E, s, a);
  }

  lemma SameUnloadable(s: State, t: State, a: Action)
    requires t.q.workers == s.q.workers && t.q.queue == s.q.queue && t.steps == s.steps && t.instances == s.instances
    ensures Unloadable(t, a) <==> Unloadable(s, a)
  {
  }

  lemma WaitingStays(E: set<Edge>, s: State, a: Action)
    requires Enabled(E, s, a) && !a.QueueRoot?
    ensures Apply(E, s, a).waiting == s.waiting
  {
    hide IsRows, Ready, RunningOthers, Q.Apply, Q.Enabled;
  }

  lemma WorkersStay(E: set<Edge>, s: State, a: Action)
    requires Enabled(E, s, a) && s.q.workers != map[]
    ensures Apply(E, s, a).q.workers != map[]
  {
    assert s.q.workers.Keys != {};
    var w :| w in s.q.workers.Keys;
    assert w in Apply(E, s, a).q.workers;
  }

  lemma {:induction false} QueueRoots(E: set<Edge>, roots: set<Id>, s: State, todo: set<Id>)
    returns (acts: seq<Action>, t: State)
    requires Local(E, roots, s) && Unfailed(s) && s.q.workers != map[] && todo <= s.waiting
    ensures IsRun(E, s, acts, t) && Local(E, roots, t) && Unfailed(t) && t.q.workers != map[]
    ensures t.waiting == s.waiting - todo
    decreases |todo|
  {
    hide Local, Unfailed;
    if todo == {} {
      acts, t := [], s;
    } else {
      var r :| r in todo;
      var a := QueueRoot(r, r, s.q.now);
      StepKeepsLocal(E, roots, s, a);
      StepStaysUnfailed(E, roots, s, a);
      var rest;
      rest, t := QueueRoots(E, roots, Apply(E, s, a), todo - {r});
      acts := [a] + rest;
      assert acts[1..] == rest;
    }
  }

  /** Rows are never taken away. */
  lemma RowsStay(E: set<Edge>, roots: set<Id>, s: State, acts: seq<Action>, t: State)
    requires Init(E, roots, s) && IsRun(E, s, acts, t)
    ensures s.instances.Keys <= t.instances.Keys
  {
    InitLocal(E, roots, s);
    InitCovered(E, roots, s);
    RunKeeps(E, roots, s, acts, t);
  }

  /** Over an acyclic graph, with the topic registered and at least one worker, whichever
      batches are started, some run settles them all. */
  lemma SettledRunExists(E: set<Edge>, roots: set<Id>, s: State, started: set<Id>)
    requires Acyclic(E) && Init(E, roots, s) && started <= roots
    requires TOPIC in s.q.topics && s.q.workers != map[]
    ensures exists acts, t ::
              && IsRun(E, s, acts, t) && Settled(t)
              && Started(roots, t) == started && s.instances.Keys <= t.instances.Keys
  {
    hide Local, Settled, Acyclic;
    InitLocal(E, roots, s);
    var first, m := QueueRoots(E, roots, s, started);
    var then_, t := Completes(E, roots, m);
    Join(E, s, first, m, then_, t);
    RowsStay(E, roots, s, first + then_, t);
    assert Started(roots, t) == started;
  }
}
