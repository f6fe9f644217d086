/** The workflow with two details of the code put back: the producer stores an instance id as
    JSON text, which the handler takes for the id itself, and the query for the next instances
    is not accepted by the database. */
module WorkflowAsWritten {
  import opened Common
  import opened Digraph
  import opened InstanceLinks
  import opened WorkflowProtocol
  import opened WorkflowSafety
  import opened WorkflowResult
  import Q = DelayQueue

  // ---- JSON texts ----

  const HEX: string := "0123456789abcdef"

  /** encoding/json's text of one character of a string. */
  function JsonChar(c: char): string {
    match c
    case '"' => "\\\""
    case '\\' => "\\\\"
    case '\n' => "\\n"
    case '\r' => "\\r"
    case '\t' => "\\t"
    case _ =>
      if c < ' ' || c in "<>&" then "\\u00" + [HEX[c as int / 16], HEX[c as int % 16]] else [c]
  }

  function JsonBody(s: string): string
    decreases |s|
  {
    if s == "" then "" else JsonChar(s[0]) + JsonBody(s[1..])
  }

  function JsonText(x: Id): Id {
    Id("\"" + JsonBody(x.text) + "\"")
  }

  /** The id begins with a double quote, which no UUID does. */
  ghost predicate Quoted(x: Id) {
    x.text != "" && x.text[0] == '"'
  }

  lemma {:induction false} BodyIsNoShorter(s: string)
    ensures |JsonBody(s)| >= |s|
    decreases |s|
  {
    if s != "" {
      BodyIsNoShorter(s[1..]);
    }
  }

  /** The stored payload is never the id it stands for. */
  lemma JsonTextDiffers(x: Id)
    ensures Quoted(JsonText(x)) && JsonText(x) != x
  {
    BodyIsNoShorter(x.text);
    assert |JsonText(x).text| == |JsonBody(x.text)| + 2;
  }

  // ---- the protocol, as meant and as written ----

  /** `json`: payloads are JSON texts; `query`: the query for the next instances works. */
  datatype Code = Code(json: bool, query: bool)

  const MEANT := Code(false, true)
  const WRITTEN := Code(true, false)

  function Payload(code: Code, x: Id): Id {
    if code.json then JsonText(x) else x
  }

  ghost predicate Possible(code: Code, E: set<Edge>, s: State, a: Action) {
    Enabled(E, s, a) && (a.Query? ==> code.query)
  }

  ghost function Outcome(code: Code, E: set<Edge>, s: State, a: Action): State
    requires Possible(code, E, s, a)
  {
    match a
    case Publish(w, k, drift) =>
      Next(s, w, Publishing(s.steps[w].todo - {k})).
      (q := Q.Apply(s.q, Q.Publish(TOPIC, k, Payload(code, k), s.steps[w].todo[k] + drift, MAX_RETRY)))
    case QueueRoot(r, node, time) =>
      s.(q := Q.Apply(s.q, Q.Publish(TOPIC, node, Payload(code, r), time, MAX_RETRY)), waiting := s.waiting - {r})
    case _ => Apply(E, s, a)
  }

  ghost predicate Runs(code: Code, E: set<Edge>, s: State, acts: seq<Action>, t: State)
    decreases |acts|
  {
    if acts == [] then s == t
    else Possible(code, E, s, acts[0]) && Runs(code, E, Outcome(code, E, s, acts[0]), acts[1..], t)
  }

  /** As meant, this is the protocol. */
  lemma {:induction false} MeantIsProtocol(E: set<Edge>, s: State, acts: seq<Action>, t: State)
    ensures Runs(MEANT, E, s, acts, t) <==> IsRun(E, s, acts, t)
    decreases |acts|
  {
    if acts != [] && Enabled(E, s, acts[0]) {
      assert Outcome(MEANT, E, s, acts[0]) == Apply(E, s, acts[0]);
      MeantIsProtocol(E, Apply(E, s, acts[0]), acts[1..], t);
    }
  }

  // ---- steps ----

  lemma AddOutcome(code: Code, E: set<Edge>, s: State, a: Action)
    requires Possible(code, E, s, a) && Adds(a)
    ensures a.QueueRoot? ==> a.r in s.waiting
    ensures a.Publish? ==> AtStep(s, a.w) && s.steps[a.w].Publishing?
    ensures var t := Outcome(code, E, s, a);
            && (exists m :: t.q.queue == s.q.queue[s.q.nextId := m]
                            && m.payload == Payload(code, if a.QueueRoot? then a.r else a.k))
            && t.instances == s.instances && t.q.workers == s.q.workers
            && (a.QueueRoot? ==> t.waiting == s.waiting - {a.r} && t.steps == s.steps)
            && (exists qa: Q.QueueAction :: qa.Publish? && t.q == Q.Apply(s.q, qa))
  {
    var x, node, time := if a.QueueRoot? then a.r else a.k, if a.QueueRoot? then a.node else a.k,
                         if a.QueueRoot? then a.time else s.steps[a.w].todo[a.k] + a.drift;
    var qa := Q.Publish(TOPIC, node, Payload(code, x), time, MAX_RETRY);
    var m := Q.DelayMessage(node, TOPIC, time, Q.Pending, Payload(code, x), 0, MAX_RETRY);
    assert Q.Apply(s.q, qa).queue == s.q.queue[s.q.nextId := m];
  }

  lemma KeysGrow(code: Code, E: set<Edge>, s: State, a: Action)
    requires Possible(code, E, s, a)
    ensures s.instances.Keys <= Outcome(code, E, s, a).instances.Keys
  {
    hide Q.Apply, Q.Enabled, IsRows, Ready, RunningOthers;
  }

  lemma {:induction false} RunKeysGrow(code: Code, E: set<Edge>, s: State, acts: seq<Action>, t: State)
    requires Runs(code, E, s, acts, t)
    ensures s.instances.Keys <= t.instances.Keys
    decreases |acts|
  {
    hide Possible, Outcome;
    if acts != [] {
      KeysGrow(code, E, s, acts[0]);
      RunKeysGrow(code, E, Outcome(code, E, s, acts[0]), acts[1..], t);
    }
  }

  lemma QueueStays(code: Code, E: set<Edge>, s: State, a: Action)
    requires Q.Inv(s.q) && Possible(code, E, s, a)
    ensures Q.Inv(Outcome(code, E, s, a).q)
  {
    hide Q.Inv, Q.Apply, Possible, Outcome, Enabled, Apply;
    var t := Outcome(code, E, s, a);
    if Adds(a) {
      AddOutcome(code, E, s, a);
      var qa: Q.QueueAction :| qa.Publish? && t.q == Q.Apply(s.q, qa);
      Q.StepKeepsInv(s.q, qa);
    } else {
      SameOutcome(code, E, s, a);
      SamePossible(code, E, s, a);
      if a.Queue? {
        QueueStepIs(E, s, a);
        Q.StepKeepsInv(s.q, a.a);
      } else if a.Insert? {
        InsertStepIs(E, s, a);
      } else {
        HandlerQueue(E, s, a);
        if Leaves(a) {
          Q.StepKeepsInv(s.q, Q.Return(a.w, !a.Fail?));
        }
      }
    }
  }

  lemma SamePossible(code: Code, E: set<Edge>, s: State, a: Action)
    requires Possible(code, E, s, a)
    ensures Enabled(E, s, a) && (a.Query? ==> code.query)
  {
  }

  lemma SameOutcome(code: Code, E: set<Edge>, s: State, a: Action)
    requires Possible(code, E, s, a) && !Adds(a)
    ensures Enabled(E, s, a) && Outcome(code, E, s, a) == Apply(E, s, a)
  {
  }

  lemma HandlerQueue(E: set<Edge>, s: State, a: Action)
    requires Enabled(E, s, a) && Handles(a)
    ensures Leaves(a) ==> Q.Enabled(s.q, Q.Return(a.w, !a.Fail?))
                          && Apply(E, s, a).q == Q.Apply(s.q, Q.Return(a.w, !a.Fail?))
    ensures !Leaves(a) ==> Apply(E, s, a).q == s.q
  {
    hide IsRows, Ready, RunningOthers;
  }

  // ---- no payload is an instance ----

  ghost predicate Early(step: Step) {
    step == Counting || step == Loading
  }

  /** Nothing has run, and nothing can: no message names one of these ids. */
  ghost predicate Idling(code: Code, roots: set<Id>, ids: set<Id>, s: State) {
    && Q.Inv(s.q) && s.instances.Keys <= ids && s.waiting <= roots
    && (forall id :: id in s.q.queue ==> s.q.queue[id].payload !in ids)
    && (forall w :: w in s.steps ==> Early(s.steps[w]) && AtStep(s, w))
    && forall x :: x in s.instances ==> s.instances[x].status == NotReady
  }

  ghost predicate NoRootIn(code: Code, roots: set<Id>, ids: set<Id>) {
    forall r :: r in roots ==> Payload(code, r) !in ids
  }

  lemma StepStaysIdling(code: Code, E: set<Edge>, roots: set<Id>, ids: set<Id>, s: State, a: Action)
    requires NoRootIn(code, roots, ids) && Idling(code, roots, ids, s) && Possible(code, E, s, a)
    requires Outcome(code, E, s, a).instances.Keys <= ids
    ensures Idling(code, roots, ids, Outcome(code, E, s, a))
  {
    QueueStays(code, E, s, a);
    hide Q.Inv, Possible, Outcome, Apply, Enabled, RunningOthers, Ready, IsRows;
    if Adds(a) {
      AddOutcome(code, E, s, a);
      IdlingAdds(code, E, roots, ids, s, a);
    } else {
      SameOutcome(code, E, s, a);
      if a.Queue? {
        QueueStepIs(E, s, a);
        IdlingQueue(code, E, roots, ids, s, a);
      } else if a.Insert? {
        InsertStepIs(E, s, a);
      } else {
        IdlingHandler(code, E, roots, ids, s, a);
      }
    }
  }

  lemma IdlingAdds(code: Code, E: set<Edge>, roots: set<Id>, ids: set<Id>, s: State, a: Action)
    requires NoRootIn(code, roots, ids) && Idling(code, roots, ids, s) && Possible(code, E, s, a) && Adds(a)
    requires Q.Inv(Outcome(code, E, s, a).q)
    ensures Idling(code, roots, ids, Outcome(code, E, s, a))
  {
    hide Q.Inv, Possible, Outcome;
    assert forall w :: w in s.steps ==> !s.steps[w].Publishing?;
    AddOutcome(code, E, s, a);
  }

  lemma IdlingQueue(code: Code, E: set<Edge>, roots: set<Id>, ids: set<Id>, s: State, a: Action)
    requires Idling(code, roots, ids, s) && Enabled(E, s, a) && a.Queue? && Q.Inv(Apply(E, s, a).q)
    ensures Idling(code, roots, ids, Apply(E, s, a))
  {
    var t := Apply(E, s, a);
    hide Q.Inv, Apply, Enabled;
    QueueStepIs(E, s, a);
    Q.OnlyPublishAdds(s.q, a.a);
    forall id | id in t.q.queue
      ensures t.q.queue[id].payload !in ids
    {
      Q.StepFollows(s.q, a.a, id);
    }
    forall w | w in t.steps
      ensures Early(t.steps[w]) && AtStep(t, w)
    {
      StepsFollowQueue(s, a.a, t, w);
    }
  }

  lemma StepsFollowQueue(s: State, a: Q.QueueAction, t: State, w: nat)
    requires Q.Enabled(s.q, a) && t.q == Q.Apply(s.q, a) && !a.Return?
    requires t.steps == (if a.Lookup? && s.q.workers[a.w].msg.topic in s.q.topics then s.steps[a.w := Counting]
                         else if a.Crash? then s.steps - {a.w}
                         else s.steps)
    requires forall v :: v in s.steps ==> AtStep(s, v)
    ensures w in t.steps ==> AtStep(t, w) && (t.steps[w] == Counting || (w in s.steps && t.steps[w] == s.steps[w]))
  {
  }

  lemma IdlingHandler(code: Code, E: set<Edge>, roots: set<Id>, ids: set<Id>, s: State, a: Action)
    requires Idling(code, roots, ids, s) && Enabled(E, s, a) && Handles(a) && Q.Inv(Apply(E, s, a).q)
    ensures Idling(code, roots, ids, Apply(E, s, a))
  {
    hide Apply, Enabled, RunningOthers, Ready, IsRows, Q.RowOk, Q.HeldOnce;
    var w := a.w;
    HandlerStepIs(E, s, a);
    HandlerMoves(E, s, a, w);
    assert Early(s.steps[w]) && Q.WorkerOk(s.q, w);
    NobodyRunsYet(s.instances, PayloadOf(s, w));
  }

  lemma NobodyRunsYet(inst: Instances, x: Id)
    requires forall y :: y in inst ==> inst[y].status == NotReady || inst[y].status == Success
    ensures RunningOthers(inst, x) == {}
  {
  }

  lemma {:induction false} RunStaysIdling(code: Code, E: set<Edge>, roots: set<Id>, s: State, acts: seq<Action>,
                                          t: State)
    requires NoRootIn(code, roots, t.instances.Keys) && Idling(code, roots, t.instances.Keys, s)
    requires Runs(code, E, s, acts, t)
    ensures Idling(code, roots, t.instances.Keys, t)
    decreases |acts|
  {
    hide Possible, Outcome, Idling, NoRootIn;
    if acts != [] {
      RunKeysGrow(code, E, Outcome(code, E, s, acts[0]), acts[1..], t);
      StepStaysIdling(code, E, roots, t.instances.Keys, s, acts[0]);
      RunStaysIdling(code, E, roots, Outcome(code, E, s, acts[0]), acts[1..], t);
    }
  }

  /** If no root's payload is the id of an instance, no run ever changes an instance. */
  lemma NothingRuns(code: Code, E: set<Edge>, roots: set<Id>, s: State, acts: seq<Action>, t: State)
    requires Init(E, roots, s) && Runs(code, E, s, acts, t)
    requires forall r :: r in roots ==> Payload(code, r) !in t.instances
    ensures forall x :: x in t.instances ==> t.instances[x].status == NotReady
    ensures Succeeded(t) == {}
  {
    RunKeysGrow(code, E, s, acts, t);
    Q.InitInv(s.q);
    RunStaysIdling(code, E, roots, s, acts, t);
  }

  /** So with JSON payloads and ids that begin with no quote, nothing runs at all. */
  lemma JsonPayloadsRunNothing(code: Code, E: set<Edge>, roots: set<Id>, s: State, acts: seq<Action>, t: State)
    requires code.json && Init(E, roots, s) && Runs(code, E, s, acts, t)
    requires forall x :: x in t.instances ==> !Quoted(x)
    ensures forall x :: x in t.instances ==> t.instances[x].status == NotReady
    ensures Succeeded(t) == {}
  {
    forall r | r in roots
      ensures Payload(code, r) !in t.instances
    {
      JsonTextDiffers(r);
    }
    NothingRuns(code, E, roots, s, acts, t);
  }

  // ---- exactly when something can run ----

  ghost predicate InsertsNothing(acts: seq<Action>) {
    forall a :: a in acts ==> !a.Insert?
  }

  lemma {:induction false} KeysStay(code: Code, E: set<Edge>, s: State, acts: seq<Action>, t: State)
    requires Runs(code, E, s, acts, t) && InsertsNothing(acts)
    ensures t.instances.Keys == s.instances.Keys
    decreases |acts|
  {
    if acts != [] {
      StepKeysStay(code, E, s, acts[0]);
      hide Possible, Outcome;
      KeysStay(code, E, Outcome(code, E, s, acts[0]), acts[1..], t);
    }
  }

  lemma StepKeysStay(code: Code, E: set<Edge>, s: State, a: Action)
    requires Possible(code, E, s, a) && !a.Insert?
    ensures Outcome(code, E, s, a).instances.Keys == s.instances.Keys
  {
    hide Q.Apply, Q.Enabled, IsRows, Ready, RunningOthers;
  }

  lemma {:induction false} OneMore(code: Code, E: set<Edge>, s: State, acts: seq<Action>, t: State, a: Action)
    requires Runs(code, E, s, acts, t) && Possible(code, E, t, a)
    ensures Runs(code, E, s, acts + [a], Outcome(code, E, t, a))
    decreases |acts|
  {
    hide Possible, Outcome;
    if acts == [] {
      assert [a][1..] == [] && [] + [a] == [a];
    } else {
      OneMore(code, E, Outcome(code, E, s, acts[0]), acts[1..], t, a);
      assert (acts + [a])[1..] == acts[1..] + [a];
    }
  }

  /** With stored rows, a registered handler and a worker, some run makes an instance succeed
      exactly when the payload of some root is the id of an instance. */
  lemma SomethingRunsExactly(code: Code, E: set<Edge>, roots: set<Id>, s: State)
    requires Init(E, roots, s) && TOPIC in s.q.topics && s.q.workers != map[]
    ensures (exists acts, t :: Runs(code, E, s, acts, t) && InsertsNothing(acts) && Succeeded(t) != {}) <==>
            exists r :: r in roots && Payload(code, r) in s.instances
  {
    hide Init, Runs, Succeeded;
    if acts, t :| Runs(code, E, s, acts, t) && InsertsNothing(acts) && Succeeded(t) != {} {
      KeysStay(code, E, s, acts, t);
      if forall r :: r in roots ==> Payload(code, r) !in s.instances {
        NothingRuns(code, E, roots, s, acts, t);
      }
    }
    if r :| r in roots && Payload(code, r) in s.instances {
      var acts, t := FirstRun(code, E, roots, s, r);
    }
  }

  /** Queue the root, claim its message, enter the handler, count, load, write. */
  lemma FirstRun(code: Code, E: set<Edge>, roots: set<Id>, s: State, r: Id) returns (acts: seq<Action>, t: State)
    requires Init(E, roots, s) && TOPIC in s.q.topics && s.q.workers != map[]
    requires r in roots && Payload(code, r) in s.instances
    ensures Runs(code, E, s, acts, t) && InsertsNothing(acts) && Payload(code, r) in Succeeded(t)
  {
    hide Runs;
    assert s.q.workers.Keys != {};
    var w :| w in s.q.workers.Keys;
    var m := Claimed(code, E, roots, s, r, w);
    acts := [QueueRoot(r, r, s.q.now), Queue(Q.Fetch(w, s.q.nextId, {})), Queue(Q.Lookup(w, false))];
    t := Written(code, E, m, w);
    var more := [Count(w), Load(w), Write(w)];
    RunsJoin(code, E, s, acts, m, more, t);
    acts := acts + more;
  }

  lemma Claimed(code: Code, E: set<Edge>, roots: set<Id>, s: State, r: Id, w: nat) returns (m: State)
    requires Init(E, roots, s) && TOPIC in s.q.topics && r in roots && w in s.q.workers
    ensures var acts := [QueueRoot(r, r, s.q.now), Queue(Q.Fetch(w, s.q.nextId, {})), Queue(Q.Lookup(w, false))];
            Runs(code, E, s, acts, m)
    ensures AtStep(m, w) && m.steps[w] == Counting && PayloadOf(m, w) == Payload(code, r) && m.instances == s.instances
  {
    hide Runs;
    var a, b, c := QueueRoot(r, r, s.q.now), Queue(Q.Fetch(w, s.q.nextId, {})), Queue(Q.Lookup(w, false));
    var s1 := Outcome(code, E, s, a);
    var s2 := Outcome(code, E, s1, b);
    m := Outcome(code, E, s2, c);
    NoneYet(code, E, s);
    OneMore(code, E, s, [], s, a);
    OneMore(code, E, s, [] + [a], s1, b);
    OneMore(code, E, s, [] + [a] + [b], s2, c);
    assert [] + [a] + [b] + [c] == [a, b, c];
  }

  lemma NoneYet(code: Code, E: set<Edge>, s: State)
    ensures Runs(code, E, s, [], s)
  {
  }

  lemma Written(code: Code, E: set<Edge>, m: State, w: nat) returns (t: State)
    requires AtStep(m, w) && m.steps[w] == Counting && PayloadOf(m, w) in m.instances
    requires forall x :: x in m.instances ==> m.instances[x].status == NotReady
    ensures Runs(code, E, m, [Count(w), Load(w), Write(w)], t) && PayloadOf(m, w) in Succeeded(t)
  {
    hide Runs, RunningOthers;
    NobodyRunsYet(m.instances, PayloadOf(m, w));
    var m1 := Outcome(code, E, m, Count(w));
    var m2 := Outcome(code, E, m1, Load(w));
    t := Outcome(code, E, m2, Write(w));
    NoneYet(code, E, m);
    OneMore(code, E, m, [], m, Count(w));
    OneMore(code, E, m, [] + [Count(w)], m1, Load(w));
    OneMore(code, E, m, [] + [Count(w)] + [Load(w)], m2, Write(w));
    assert [] + [Count(w)] + [Load(w)] + [Write(w)] == [Count(w), Load(w), Write(w)];
  }

  lemma {:induction false} RunsJoin(code: Code, E: set<Edge>, s: State, a: seq<Action>, m: State, b: seq<Action>,
                                    t: State)
    requires Runs(code, E, s, a, m) && Runs(code, E, m, b, t)
    ensures Runs(code, E, s, a + b, t)
    decreases |a|
  {
    hide Possible, Outcome;
    if a == [] {
      assert a + b == b;
    } else {
      RunsJoin(code, E, Outcome(code, E, s, a[0]), a[1..], m, b, t);
      assert (a + b)[1..] == a[1..] + b;
    }
  }

  // ---- the query never works ----

  ghost function QueuedPayloads(code: Code, roots: set<Id>, s: State): set<Id> {
    set r | r in roots && r !in s.waiting :: Payload(code, r)
  }

  ghost predicate BeforePublishing(step: Step) {
    !step.Publishing? && step != Aborting
  }

  /** Only roots are queued, and only queued roots succeed. */
  ghost predicate RootsOnly(code: Code, roots: set<Id>, s: State) {
    && Q.Inv(s.q) && s.waiting <= roots
    && (forall id :: id in s.q.queue ==> s.q.queue[id].payload in QueuedPayloads(code, roots, s))
    && (forall w :: w in s.steps ==> BeforePublishing(s.steps[w]) && AtStep(s, w))
    && forall x :: x in s.instances ==> s.instances[x].status == NotReady || RanAsRoot(code, roots, s, x)
  }

  ghost predicate RanAsRoot(code: Code, roots: set<Id>, s: State, x: Id) {
    x in s.instances && s.instances[x].status == Success && x in QueuedPayloads(code, roots, s)
  }

  lemma StepStaysRootsOnly(code: Code, E: set<Edge>, roots: set<Id>, s: State, a: Action)
    requires !code.query && RootsOnly(code, roots, s) && Possible(code, E, s, a)
    ensures RootsOnly(code, roots, Outcome(code, E, s, a))
  {
    QueueStays(code, E, s, a);
    hide Q.Inv, Possible, Outcome, Apply, Enabled, RunningOthers, Ready, IsRows, RootsOnly;
    if Adds(a) {
      RootsOnlyAdds(code, E, roots, s, a);
    } else {
      SameOutcome(code, E, s, a);
      if a.Queue? {
        RootsOnlyQueue(code, E, roots, s, a);
      } else if a.Insert? {
        RootsOnlyInsert(code, E, roots, s, a);
      } else {
        SamePossible(code, E, s, a);
        RootsOnlyHandler(code, E, roots, s, a);
      }
    }
  }

  lemma RootsOnlyAdds(code: Code, E: set<Edge>, roots: set<Id>, s: State, a: Action)
    requires RootsOnly(code, roots, s) && Possible(code, E, s, a) && Adds(a) && Q.Inv(Outcome(code, E, s, a).q)
    ensures RootsOnly(code, roots, Outcome(code, E, s, a))
  {
    hide Q.Inv, Possible, Outcome, RanAsRoot, QueuedPayloads;
    assert forall w :: w in s.steps ==> !s.steps[w].Publishing?;
    AddOutcome(code, E, s, a);
    var t := Outcome(code, E, s, a);
    MoreQueued(code, roots, s, t);
    QueuedNow(code, roots, t, a.r);
    forall x | x in t.instances
      ensures t.instances[x].status == NotReady || RanAsRoot(code, roots, t, x)
    {
      StillRan(code, roots, s, t, x);
    }
  }

  lemma MoreQueued(code: Code, roots: set<Id>, s: State, t: State)
    requires t.waiting <= s.waiting
    ensures QueuedPayloads(code, roots, s) <= QueuedPayloads(code, roots, t)
  {
  }

  lemma QueuedNow(code: Code, roots: set<Id>, t: State, r: Id)
    ensures r in roots && r !in t.waiting ==> Payload(code, r) in QueuedPayloads(code, roots, t)
  {
  }

  lemma StillRan(code: Code, roots: set<Id>, s: State, t: State, x: Id)
    requires t.waiting <= s.waiting && x in s.instances && x in t.instances && t.instances[x] == s.instances[x]
    ensures RanAsRoot(code, roots, s, x) ==> RanAsRoot(code, roots, t, x)
  {
    hide Payload;
  }

  lemma RootsOnlyQueue(code: Code, E: set<Edge>, roots: set<Id>, s: State, a: Action)
    requires RootsOnly(code, roots, s) && Enabled(E, s, a) && a.Queue? && Q.Inv(Apply(E, s, a).q)
    ensures RootsOnly(code, roots, Apply(E, s, a))
  {
    hide Q.Inv, Q.Apply, Q.Enabled, Apply, Enabled, Payload, AtStep, RanAsRoot, QueuedPayloads;
    var t := Apply(E, s, a);
    QueueStepIs(E, s, a);
    Q.OnlyPublishAdds(s.q, a.a);
    MoreQueued(code, roots, s, t);
    forall id | id in t.q.queue
      ensures t.q.queue[id].payload in QueuedPayloads(code, roots, t)
    {
      Q.StepFollows(s.q, a.a, id);
    }
    forall x | x in t.instances
      ensures t.instances[x].status == NotReady || RanAsRoot(code, roots, t, x)
    {
      StillRan(code, roots, s, t, x);
    }
    forall w | w in t.steps
      ensures BeforePublishing(t.steps[w]) && AtStep(t, w)
    {
      StepsFollowQueue(s, a.a, t, w);
    }
  }

  lemma RootsOnlyInsert(code: Code, E: set<Edge>, roots: set<Id>, s: State, a: Action)
    requires RootsOnly(code, roots, s) && Enabled(E, s, a) && a.Insert?
    ensures RootsOnly(code, roots, Apply(E, s, a))
  {
    var t := Apply(E, s, a);
    hide Q.Inv, Apply, Enabled, Payload;
    InsertStepIs(E, s, a);
    MoreQueued(code, roots, s, t);
    forall x | x in t.instances
      ensures t.instances[x].status == NotReady || RanAsRoot(code, roots, t, x)
    {
      if x in s.instances {
        StillRan(code, roots, s, t, x);
      }
    }
  }

  lemma RootsOnlyHandler(code: Code, E: set<Edge>, roots: set<Id>, s: State, a: Action)
    requires RootsOnly(code, roots, s) && Enabled(E, s, a) && Handles(a) && !a.Query? && Q.Inv(Apply(E, s, a).q)
    ensures RootsOnly(code, roots, Apply(E, s, a))
  {
    hide Apply, Enabled, Q.Inv, AtStep, BeforePublishing, RanAsRoot, Payload;
    var t := Apply(E, s, a);
    HandlerStepIs(E, s, a);
    RunsAQueuedRoot(code, E, roots, s, a);
    StaysBefore(E, s, a);
    MoreQueued(code, roots, s, t);
    forall x | x in t.instances
      ensures t.instances[x].status == NotReady || RanAsRoot(code, roots, t, x)
    {
      if a.Write? && x == PayloadOf(s, a.w) {
        RanNow(code, roots, t, x);
      } else {
        StillRan(code, roots, s, t, x);
      }
    }
  }

  lemma RanNow(code: Code, roots: set<Id>, t: State, x: Id)
    requires x in t.instances && t.instances[x].status == Success && x in QueuedPayloads(code, roots, t)
    ensures RanAsRoot(code, roots, t, x)
  {
  }

  /** A handler works on a queued root, nobody else of its node is running, and it never
      aborts. */
  lemma RunsAQueuedRoot(code: Code, E: set<Edge>, roots: set<Id>, s: State, a: Action)
    requires RootsOnly(code, roots, s) && Enabled(E, s, a) && Handles(a)
    ensures AtStep(s, a.w) && PayloadOf(s, a.w) in QueuedPayloads(code, roots, s) && !a.AbortWrite?
    ensures RunningOthers(s.instances, PayloadOf(s, a.w)) == {}
  {
    hide Enabled, RunningOthers, Q.RowOk, Q.HeldOnce, QueuedPayloads;
    HandlerMoves(E, s, a, a.w);
    assert BeforePublishing(s.steps[a.w]) && Q.WorkerOk(s.q, a.w);
    NobodyRunsYet(s.instances, PayloadOf(s, a.w));
  }

  lemma StaysBefore(E: set<Edge>, s: State, a: Action)
    requires Enabled(E, s, a) && Handles(a) && !a.Query? && AtStep(s, a.w)
    requires forall w :: w in s.steps ==> BeforePublishing(s.steps[w]) && AtStep(s, w)
    requires RunningOthers(s.instances, PayloadOf(s, a.w)) == {}
    ensures var t := Apply(E, s, a);
            forall w :: w in t.steps ==> BeforePublishing(t.steps[w]) && AtStep(t, w)
  {
    hide Apply, Enabled, RunningOthers, Ready, IsRows;
    var t := Apply(E, s, a);
    HandlerStepIs(E, s, a);
    HandlerMoves(E, s, a, a.w);
    forall w | w in t.steps
      ensures BeforePublishing(t.steps[w]) && AtStep(t, w)
    {
      assert AtStep(s, w);
    }
  }

  lemma {:induction false} RunStaysRootsOnly(code: Code, E: set<Edge>, roots: set<Id>, s: State, acts: seq<Action>,
                                             t: State)
    requires !code.query && RootsOnly(code, roots, s) && Runs(code, E, s, acts, t)
    ensures RootsOnly(code, roots, t)
    decreases |acts|
  {
    hide Possible, Outcome, RootsOnly;
    if acts != [] {
      StepStaysRootsOnly(code, E, roots, s, acts[0]);
      RunStaysRootsOnly(code, E, roots, Outcome(code, E, s, acts[0]), acts[1..], t);
    }
  }

  /** Without the query nothing but queued roots is ever queued or succeeds. */
  lemma OnlyRootsRun(code: Code, E: set<Edge>, roots: set<Id>, s: State, acts: seq<Action>, t: State)
    requires !code.query && Init(E, roots, s) && Runs(code, E, s, acts, t)
    ensures Succeeded(t) <= QueuedPayloads(code, roots, t)
    ensures forall id :: id in t.q.queue ==> t.q.queue[id].payload in QueuedPayloads(code, roots, t)
  {
    hide Payload;
    Q.InitInv(s.q);
    RunStaysRootsOnly(code, E, roots, s, acts, t);
  }
}
