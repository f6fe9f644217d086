/** Confluence: whatever the interleaving, retries, duplicate messages and lost updates, a
    batch whose messages all settled as successful has run exactly the least set of
    instances that contains the root and every instance whose upstreams are all in it. */
module WorkflowResult {
  import opened Common
  import opened Digraph
  import opened InstanceLinks
  import opened WorkflowProtocol
  import opened WorkflowSafety
  import Q = DelayQueue

  // ---- nothing ready is forgotten ----

  /** The worker will still look at, or publish, downstream d before it settles. */
  ghost predicate StillCovers(s: State, w: nat, d: Id) {
    w in s.q.workers && s.q.workers[w].Busy? &&
    match s.q.workers[w].phase
    case Claimed => true
    case Called => w in s.steps && s.steps[w] != Aborting && (s.steps[w].Publishing? ==> d in s.steps[w].todo)
    case Returned(ok) => !ok
  }

  /** An unsettled message of an upstream of d whose holder, if any, still covers d. */
  ghost predicate Open(E: set<Edge>, s: State, id: nat, d: Id) {
    && id in s.q.queue && (s.q.queue[id].payload, d) in E && s.q.queue[id].status != Q.Success
    && forall w :: Q.Holds(s.q, w, id) ==> StillCovers(s, w, d)
  }

  ghost predicate CoveredAt(E: set<Edge>, s: State, d: Id) {
    AllUpsDone(E, s.instances, d) ==> HasMessage(s, d) || exists id :: Open(E, s, id, d)
  }

  ghost predicate Covered(E: set<Edge>, s: State) {
    forall d {:trigger AllUpsDone(E, s.instances, d)} :: CoveredAt(E, s, d)
  }

  /** The write that completes the upstreams of d is made by a holder that still covers d. */
  lemma CompletingWriteCovers(E: set<Edge>, roots: set<Id>, s: State, a: Action, d: Id)
    requires Local(E, roots, s) && Enabled(E, s, a)
    requires !AllUpsDone(E, s.instances, d) && AllUpsDone(E, Apply(E, s, a).instances, d)
    ensures exists id :: Open(E, Apply(E, s, a), id, d)
  {
    hide Apply, Enabled, Local, Q.Apply, Q.Enabled, Open, RunningOthers, Ready;
    NeverAborts(E, roots, s, a);
    var t := Apply(E, s, a);
    if a.Queue? {
      QueueStepIs(E, s, a);
    } else if Adds(a) {
      AddStepIs(E, s, a);
    } else if a.Insert? {
      InsertStepIs(E, s, a);
    } else {
      HandlerStepIs(E, s, a);
      var u :| u in Ups(E, d) && !Done(s.instances, u);
      UpIsEdge(E, u, d);
      WriterIsOpen(E, roots, s, a, d);
    }
  }

  lemma WriterIsOpen(E: set<Edge>, roots: set<Id>, s: State, a: Action, d: Id)
    requires Local(E, roots, s) && Enabled(E, s, a) && a.Write? && AtStep(s, a.w) && (PayloadOf(s, a.w), d) in E
    ensures Open(E, Apply(E, s, a), s.q.workers[a.w].id, d)
  {
    hide Apply, Enabled, HasMessage, StatusesOk, MessageOk, Q.RowOk, WorkerOk, Done;
    HandlerStepIs(E, s, a);
    HandlerMoves(E, s, a, a.w);
    var t, id := Apply(E, s, a), s.q.workers[a.w].id;
    assert Q.WorkerOk(s.q, a.w);
    forall w | Q.Holds(t.q, w, id)
      ensures StillCovers(t, w, d)
    {
      assert Q.Holds(s.q, w, id) && Q.Holds(s.q, a.w, id);
    }
  }

  lemma UpIsEdge(E: set<Edge>, u: Id, d: Id)
    requires u in Ups(E, d)
    ensures (u, d) in E
  {
  }

  /** The ready query of a covering holder finds d. */
  lemma QueryFinds(E: set<Edge>, roots: set<Id>, s: State, a: Action, id: nat, d: Id)
    requires Local(E, roots, s) && Enabled(E, s, a) && a.Query?
    requires Open(E, s, id, d) && AllUpsDone(E, s.instances, d) && Q.Holds(s.q, a.w, id)
    ensures d in Ready(a.rows)
  {
    assert WorkerOk(E, s, a.w) && Q.WorkerOk(s.q, a.w);
    assert forall u :: u in Ups(E, d) ==> u in s.instances;
    ReadyIsReleased(E, s.instances, PayloadOf(s, a.w), a.rows, d);
  }

  lemma OtherKeepsCovering(E: set<Edge>, s: State, a: Action, d: Id, w: nat)
    requires Enabled(E, s, a) && Actor(a) != Some(w) && StillCovers(s, w, d)
    ensures StillCovers(Apply(E, s, a), w, d)
  {
    hide Apply, Enabled;
    OthersStandStill(E, s, a, w);
  }

  lemma ActorKeepsCovering(E: set<Edge>, roots: set<Id>, s: State, a: Action, id: nat, d: Id, w: nat)
    requires Local(E, roots, s) && Enabled(E, s, a) && Actor(a) == Some(w)
    requires Open(E, s, id, d) && AllUpsDone(E, s.instances, d)
    requires !(a.Publish? && a.k == d)
    requires Q.Holds(Apply(E, s, a).q, w, id)
    ensures StillCovers(Apply(E, s, a), w, d)
  {
    hide AllUpsDone, HasMessage, MessageOk, IsRows, StepOk, Released, Q.Inv, Q.RowOk, Done;
    if a.Queue? {
      assert Q.Holds(s.q, w, id) ==> StillCovers(s, w, d);
    } else {
      HandlerKeepsCovering(E, roots, s, a, id, d, w);
    }
  }

  lemma HandlerKeepsCovering(E: set<Edge>, roots: set<Id>, s: State, a: Action, id: nat, d: Id, w: nat)
    requires Local(E, roots, s) && Enabled(E, s, a) && Actor(a) == Some(w) && !a.Queue?
    requires Open(E, s, id, d) && AllUpsDone(E, s.instances, d)
    requires !(a.Publish? && a.k == d)
    requires Q.Holds(Apply(E, s, a).q, w, id)
    ensures StillCovers(Apply(E, s, a), w, d)
  {
    hide AllUpsDone, HasMessage, MessageOk, IsRows, Released, Q.Inv, Q.RowOk, Done, Ready, Local, RunningOthers;
    NeverAborts(E, roots, s, a);
    if a.Publish? {
      assert Q.Holds(s.q, w, id) && StillCovers(s, w, d);
    } else {
      hide Apply, Enabled;
      HandlerMoves(E, s, a, w);
      assert Q.Holds(s.q, w, id) && StillCovers(s, w, d);
      if a.Query? {
        QueryFinds(E, roots, s, a, id, d);
      } else if a.Count? {
        NobodyRuns(E, roots, s, PayloadOf(s, w));
      }
    }
  }

  /** A holder keeps covering d until it has published d. */
  lemma HolderKeepsCovering(E: set<Edge>, roots: set<Id>, s: State, a: Action, id: nat, d: Id, w: nat)
    requires Local(E, roots, s) && Enabled(E, s, a)
    requires Open(E, s, id, d) && AllUpsDone(E, s.instances, d)
    requires !(a.Publish? && a.k == d)
    requires Q.Holds(Apply(E, s, a).q, w, id)
    ensures StillCovers(Apply(E, s, a), w, d)
  {
    if Actor(a) == Some(w) {
      ActorKeepsCovering(E, roots, s, a, id, d, w);
    } else {
      hide Apply, Enabled, Local, AllUpsDone;
      OthersStandStill(E, s, a, w);
      assert Q.Holds(s.q, w, id);
      OtherKeepsCovering(E, s, a, d, w);
    }
  }

  /** An open message does not settle as successful. */
  lemma OpenStaysUnsettled(E: set<Edge>, roots: set<Id>, s: State, a: Action, id: nat, d: Id)
    requires Local(E, roots, s) && Enabled(E, s, a) && Open(E, s, id, d)
    ensures id in Apply(E, s, a).q.queue && Apply(E, s, a).q.queue[id].status != Q.Success
    ensures Apply(E, s, a).q.queue[id].payload == s.q.queue[id].payload
  {
    hide Local, Apply, Enabled, Q.Apply, Q.Enabled;
    StepGrows(E, roots, s, a);
    if a.Queue? {
      QueueStepIs(E, s, a);
      Q.SuccessIsSettled(s.q, a.a, id);
    } else if Adds(a) {
      AddStepIs(E, s, a);
      FreshId(E, roots, s);
    } else if a.Insert? {
      InsertStepIs(E, s, a);
    } else {
      HandlerStepIs(E, s, a);
    }
  }

  lemma StepKeepsCovered(E: set<Edge>, roots: set<Id>, s: State, a: Action)
    requires Local(E, roots, s) && Covered(E, s) && Enabled(E, s, a)
    ensures Covered(E, Apply(E, s, a))
  {
    hide Local, Enabled, Apply, AllUpsDone, HasMessage, Open, Grows;
    var t := Apply(E, s, a);
    StepGrows(E, roots, s, a);
    forall d
      ensures CoveredAt(E, t, d)
    {
      GrowsKeeps(E, roots, s, t, d);
      if AllUpsDone(E, t.instances, d) && !AllUpsDone(E, s.instances, d) {
        CompletingWriteCovers(E, roots, s, a, d);
      } else if AllUpsDone(E, s.instances, d) && !HasMessage(s, d) {
        assert CoveredAt(E, s, d);
        var id :| Open(E, s, id, d);
        OpenGoesOn(E, roots, s, a, id, d);
      }
    }
  }

  lemma OpenGoesOn(E: set<Edge>, roots: set<Id>, s: State, a: Action, id: nat, d: Id)
    requires Local(E, roots, s) && Enabled(E, s, a)
    requires Open(E, s, id, d) && AllUpsDone(E, s.instances, d)
    ensures HasMessage(Apply(E, s, a), d) || Open(E, Apply(E, s, a), id, d)
  {
    var t := Apply(E, s, a);
    if a.Publish? && a.k == d {
      assert t.q.queue[s.q.nextId].payload == d;
    } else {
      hide Local, Enabled, Apply, AllUpsDone, HasMessage;
      OpenStaysUnsettled(E, roots, s, a, id, d);
      forall w | Q.Holds(t.q, w, id)
        ensures StillCovers(t, w, d)
      {
        HolderKeepsCovering(E, roots, s, a, id, d, w);
      }
    }
  }

  lemma InitCovered(E: set<Edge>, roots: set<Id>, s: State)
    requires Init(E, roots, s)
    ensures Covered(E, s)
  {
    forall d
      ensures CoveredAt(E, s, d)
    {
      if u :| u in Ups(E, d) {
        assert !Done(s.instances, u);
      }
    }
  }

  // ---- the least set ----

  ghost function Succeeded(s: State): set<Id> {
    set x | x in s.instances && s.instances[x].status == Success
  }

  /** Every instance with upstreams, all of them in S, is in S. */
  ghost predicate UpsClosed(E: set<Edge>, S: set<Id>) {
    forall d :: Ups(E, d) != {} && Ups(E, d) <= S ==> d in S
  }

  ghost predicate IsLeast(E: set<Edge>, started: set<Id>, S: set<Id>) {
    && started <= S && UpsClosed(E, S)
    && forall T :: started <= T && UpsClosed(E, T) ==> S <= T
  }

  ghost predicate Within(s: State, T: set<Id>) {
    && Succeeded(s) <= T
    && forall id :: id in s.q.queue && s.q.queue[id].payload in s.instances ==> s.q.queue[id].payload in T
  }

  ghost predicate QueuedOnlyIfReleased(E: set<Edge>, roots: set<Id>, s: State) {
    forall id :: id in s.q.queue ==>
                    Released(E, Started(roots, s), s.instances, s.q.queue[id].payload)
  }

  /** No worker is busy, and every message of a stored instance ended as successful. */
  ghost predicate Settled(s: State) {
    && (forall w :: w in s.q.workers ==> s.q.workers[w] == Q.Idle)
    && forall id :: id in s.q.queue && s.q.queue[id].payload in s.instances ==> s.q.queue[id].status == Q.Success
  }

  lemma {:induction false} RunKeeps(E: set<Edge>, roots: set<Id>, s: State, acts: seq<Action>, t: State)
    requires Local(E, roots, s) && Covered(E, s) && IsRun(E, s, acts, t)
    ensures Local(E, roots, t) && Covered(E, t) && t.instances.Keys >= s.instances.Keys
    decreases |acts|
  {
    hide Local, Covered, Enabled, Apply;
    if acts != [] {
      StepKeepsLocal(E, roots, s, acts[0]);
      StepKeepsCovered(E, roots, s, acts[0]);
      RunKeeps(E, roots, Apply(E, s, acts[0]), acts[1..], t);
    }
  }

  lemma {:induction false} RunStartsMore(E: set<Edge>, roots: set<Id>, s: State, acts: seq<Action>, t: State)
    requires Local(E, roots, s) && IsRun(E, s, acts, t)
    ensures Begun(roots, s) <= Begun(roots, t)
    decreases |acts|
  {
    hide Local, Enabled, Apply;
    if acts != [] {
      StepKeepsLocal(E, roots, s, acts[0]);
      RunStartsMore(E, roots, Apply(E, s, acts[0]), acts[1..], t);
    }
  }

  lemma {:induction false} RunStaysWithin(E: set<Edge>, roots: set<Id>, s: State, acts: seq<Action>, t: State,
                                          T: set<Id>)
    requires Local(E, roots, s) && IsRun(E, s, acts, t)
    requires Begun(roots, t) <= T && UpsClosed(E, T) && Within(s, T)
    ensures Within(t, T)
    decreases |acts|
  {
    if acts != [] {
      StepKeepsLocal(E, roots, s, acts[0]);
      RunStartsMore(E, roots, Apply(E, s, acts[0]), acts[1..], t);
      StepStaysWithin(E, roots, s, acts[0], T);
      RunStaysWithin(E, roots, Apply(E, s, acts[0]), acts[1..], t, T);
    }
  }

  lemma StepStaysWithin(E: set<Edge>, roots: set<Id>, s: State, a: Action, T: set<Id>)
    requires Local(E, roots, s) && Enabled(E, s, a)
    requires Begun(roots, Apply(E, s, a)) <= T && UpsClosed(E, T) && Within(s, T)
    ensures Within(Apply(E, s, a), T)
  {
    hide Enabled, Apply, Released, HasMessage, Ups, UpsClosed, WorkerOk;
    var t := Apply(E, s, a);
    StepGrows(E, roots, s, a);
    forall id | id in t.q.queue && t.q.queue[id].payload in t.instances
      ensures t.q.queue[id].payload in T
    {
      if id in s.q.queue {
        assert Q.RowFollows(s.q.queue[id], t.q.queue[id]);
        if s.q.queue[id].payload !in s.instances {
          UnknownStaysUnknown(E, roots, s, a, id);
        }
      } else {
        NewPayloadWithin(E, roots, s, a, id, T);
      }
    }
    forall x | x in Succeeded(t)
      ensures x in T
    {
      DoneHasMessage(E, roots, s, a, x);
      PayloadsWithin(t, x, T);
    }
  }

  lemma PayloadsWithin(t: State, x: Id, T: set<Id>)
    requires HasMessage(t, x) && x in t.instances
    requires forall id :: id in t.q.queue && t.q.queue[id].payload in t.instances ==> t.q.queue[id].payload in T
    ensures x in T
  {
  }

  lemma NewPayloadWithin(E: set<Edge>, roots: set<Id>, s: State, a: Action, id: nat, T: set<Id>)
    requires Local(E, roots, s) && Enabled(E, s, a) && id in Apply(E, s, a).q.queue && id !in s.q.queue
    requires Begun(roots, Apply(E, s, a)) <= T && UpsClosed(E, T) && Within(s, T)
    requires Apply(E, s, a).q.queue[id].payload in Apply(E, s, a).instances
    ensures Apply(E, s, a).q.queue[id].payload in T
  {
    hide Local, Apply, Enabled, HasMessage, WorkerOk;
    PublishedReleased(E, roots, s, a, id);
    AddStepIs(E, s, a);
    var x := Apply(E, s, a).q.queue[id].payload;
    if x !in Started(roots, Apply(E, s, a)) {
      assert AllUpsDone(E, s.instances, x);
      assert Ups(E, x) <= Succeeded(s);
    }
  }

  /** Safety, in every reachable state: an instance is queued only when it is a queued root or
      has upstreams that all succeeded, and nothing outside the least closed set succeeds. */
  lemma QueuedOnlyWhenReleased(E: set<Edge>, roots: set<Id>, s: State, acts: seq<Action>, t: State)
    requires Init(E, roots, s) && IsRun(E, s, acts, t)
    ensures QueuedOnlyIfReleased(E, roots, t)
    ensures forall T :: Begun(roots, t) <= T && UpsClosed(E, T) ==> Within(t, T)
  {
    InitLocal(E, roots, s);
    InitCovered(E, roots, s);
    RunKeeps(E, roots, s, acts, t);
    forall id | id in t.q.queue
      ensures Released(E, Started(roots, t), t.instances, t.q.queue[id].payload)
    {
      assert MessageOk(E, roots, t, id);
    }
    forall T | Begun(roots, t) <= T && UpsClosed(E, T)
      ensures Within(t, T)
    {
      assert Succeeded(s) == {};
      RunStaysWithin(E, roots, s, acts, t, T);
    }
  }

  /** Once every message of a stored instance has settled as successful, the successful
      instances are exactly the least set containing the queued roots whose rows are stored and
      closed under "has upstreams, all in the set". */
  lemma SettledRunIsLeast(E: set<Edge>, roots: set<Id>, s: State, acts: seq<Action>, t: State)
    requires Init(E, roots, s) && IsRun(E, s, acts, t) && Settled(t)
    ensures IsLeast(E, Begun(roots, t), Succeeded(t))
  {
    QueuedOnlyWhenReleased(E, roots, s, acts, t);
    InitLocal(E, roots, s);
    InitCovered(E, roots, s);
    RunKeeps(E, roots, s, acts, t);
    forall r | r in Begun(roots, t)
      ensures r in Succeeded(t)
    {
      MessagesSucceeded(E, roots, t, r);
    }
    forall d | Ups(E, d) != {} && Ups(E, d) <= Succeeded(t)
      ensures d in Succeeded(t)
    {
      assert AllUpsDone(E, t.instances, d);
      assert CoveredAt(E, t, d);
      forall id
        ensures !Open(E, t, id, d)
      {
        NothingOpen(E, t, id, d);
      }
      var u :| u in Ups(E, d);
      UpIsEdge(E, u, d);
      UpsStored(E, t.instances, u, d);
      MessagesSucceeded(E, roots, t, d);
    }
  }

  lemma NothingOpen(E: set<Edge>, t: State, id: nat, d: Id)
    requires Settled(t) && AllUpsDone(E, t.instances, d)
    ensures !Open(E, t, id, d)
  {
    if Open(E, t, id, d) {
      EdgeIsUp(E, t.q.queue[id].payload, d);
    }
  }

  lemma EdgeIsUp(E: set<Edge>, u: Id, d: Id)
    requires (u, d) in E
    ensures u in Ups(E, d)
  {
    assert (u, d).0 == u && (u, d).1 == d;
  }

  lemma MessagesSucceeded(E: set<Edge>, roots: set<Id>, t: State, x: Id)
    requires Local(E, roots, t) && Settled(t) && HasMessage(t, x) && x in t.instances
    ensures x in Succeeded(t)
  {
    var id :| id in t.q.queue && t.q.queue[id].payload == x;
    assert MessageOk(E, roots, t, id);
  }

  /** Confluence: two settled runs in which the same roots began succeed on the same
      instances. */
  lemma SettledRunsAgree(E: set<Edge>, roots: set<Id>, s: State, acts: seq<Action>, t: State,
                         s': State, acts': seq<Action>, t': State)
    requires Init(E, roots, s) && IsRun(E, s, acts, t) && Settled(t)
    requires Init(E, roots, s') && IsRun(E, s', acts', t') && Settled(t')
    requires Begun(roots, t') == Begun(roots, t)
    ensures Succeeded(t) == Succeeded(t')
  {
    SettledRunIsLeast(E, roots, s, acts, t);
    SettledRunIsLeast(E, roots, s', acts', t');
  }
}
