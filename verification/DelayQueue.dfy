/** internal/store/delayqueue: the message table, the claim/retry protocol of any number of
    workers, and the consumer's methods as runs of that protocol. */
module DelayQueue {
  import opened Common

  const SECOND: int := 1_000_000_000

  datatype MsgStatus = Pending | Running | Success | Failed

  datatype DelayMessage = DelayMessage(bizId: Id, topic: Id, executeTime: int, status: MsgStatus, payload: Id,
                                       retryCount: nat, maxRetry: nat)

  type Queue = map<nat, DelayMessage>

  /** What a worker goroutine is doing with the message it read. */
  datatype Phase = Claimed | Called | Returned(ok: bool)

  datatype Work = Idle | Busy(id: nat, msg: DelayMessage, phase: Phase)

  /** `calls` is a history variable: how often the handler was entered for each message. */
  datatype QueueState = QueueState(queue: Queue, nextId: nat, now: int, topics: set<Id>, workers: map<nat, Work>,
                                   calls: map<nat, nat>)

  /** One atomic step. `lost` marks a status update whose error the code ignores. */
  datatype QueueAction =
    | Tick(elapsed: nat)
    | Register(topic: Id)
    | Publish(topic: Id, bizId: Id, payload: Id, executeTime: int, maxRetry: nat)
    | Fetch(w: nat, id: nat, locked: set<nat>)
    | FetchLost(id: nat, locked: set<nat>)
    | Lookup(w: nat, lost: bool)
    | Return(w: nat, ok: bool)
    | Settle(w: nat, lost: bool)
    | Crash(w: nat)

  function PowerOfTwo(n: nat): (r: nat)
    ensures r >= 1
  {
    if n == 0 then 1 else 2 * PowerOfTwo(n - 1)
  }

  /** 1s, 2s, 4s, ... */
  function Backoff(retryCount: nat): (d: int)
    ensures d >= SECOND
  {
    PowerOfTwo(retryCount) * SECOND
  }

  /** One second before the first retry, and twice as long before every later one, so that
      the n retries before retry n wait 2^n - 1 seconds together. */
  lemma BackoffDoubles(n: nat)
    ensures Backoff(0) == 1_000_000_000 && Backoff(n + 1) == 2 * Backoff(n)
    ensures (PowerOfTwo(n) - 1) * SECOND + Backoff(n) == (PowerOfTwo(n + 1) - 1) * SECOND
  {
  }

  ghost predicate Due(q: Queue, now: int, id: nat) {
    id in q && q[id].status == Pending && q[id].executeTime <= now
  }

  /** The row FOR UPDATE SKIP LOCKED returns: the earliest due pending row that is not locked. */
  ghost predicate Claimable(q: Queue, now: int, locked: set<nat>, id: nat) {
    && Due(q, now, id) && id !in locked
    && forall k :: Due(q, now, k) && k !in locked ==> q[id].executeTime <= q[k].executeTime
  }

  function WithStatus(q: Queue, id: nat, status: MsgStatus): Queue
    requires id in q
  {
    q[id := q[id].(status := status)]
  }

  /** handleRetry: back to the queue with one more retry, or failed when none is left. */
  function AfterError(q: Queue, id: nat, msg: DelayMessage, now: int): Queue
    requires id in q
  {
    if msg.retryCount >= msg.maxRetry then WithStatus(q, id, Failed)
    else q[id := q[id].(status := Pending, retryCount := msg.retryCount + 1,
                        executeTime := now + Backoff(msg.retryCount))]
  }

  ghost predicate IsBusy(s: QueueState, w: nat, phase: Phase) {
    w in s.workers && s.workers[w].Busy? && s.workers[w].phase == phase && s.workers[w].id in s.queue
  }

  ghost predicate Enabled(s: QueueState, a: QueueAction) {
    match a
    case Tick(_) => true
    case Register(_) => true
    case Publish(_, _, _, _, _) => true
    case Fetch(w, id, locked) => w in s.workers && s.workers[w] == Idle && Claimable(s.queue, s.now, locked, id)
    case FetchLost(id, locked) => Claimable(s.queue, s.now, locked, id)
    case Lookup(w, _) => IsBusy(s, w, Claimed)
    case Return(w, _) => IsBusy(s, w, Called)
    case Settle(w, _) =>
      w in s.workers && s.workers[w].Busy? && s.workers[w].phase.Returned? && s.workers[w].id in s.queue
    case Crash(w) => w in s.workers && s.workers[w].Busy?
  }

  ghost function Release(s: QueueState, w: nat, queue: Queue): QueueState {
    s.(workers := s.workers[w := Idle], queue := queue)
  }

  ghost function Apply(s: QueueState, a: QueueAction): QueueState
    requires Enabled(s, a)
  {
    match a
    case Tick(elapsed) => s.(now := s.now + elapsed)
    case Register(topic) => s.(topics := s.topics + {topic})
    case Publish(topic, bizId, payload, executeTime, maxRetry) =>
      s.(queue := s.queue[s.nextId := DelayMessage(bizId, topic, executeTime, Pending, payload, 0, maxRetry)],
         calls := s.calls[s.nextId := 0],
         nextId := s.nextId + 1)
    case Fetch(w, id, _) =>
      s.(queue := WithStatus(s.queue, id, Running), workers := s.workers[w := Busy(id, s.queue[id], Claimed)])
    case FetchLost(id, _) => s.(queue := WithStatus(s.queue, id, Running))
    case Lookup(w, lost) =>
      var work := s.workers[w];
      if work.msg.topic in s.topics then
        s.(workers := s.workers[w := work.(phase := Called)],
           calls := s.calls[work.id := (if work.id in s.calls then s.calls[work.id] else 0) + 1])
      else
        Release(s, w, if lost then s.queue else WithStatus(s.queue, work.id, Failed))
    case Return(w, ok) => s.(workers := s.workers[w := s.workers[w].(phase := Returned(ok))])
    case Settle(w, lost) =>
      var work := s.workers[w];
      Release(s, w, if lost then s.queue
                    else if work.phase.ok then WithStatus(s.queue, work.id, Success)
                    else AfterError(s.queue, work.id, work.msg, s.now))
    case Crash(w) => Release(s, w, s.queue)
  }

  /** A finite run, in any interleaving of the workers and the clock. */
  ghost predicate IsRun(s: QueueState, acts: seq<QueueAction>, t: QueueState)
    decreases |acts|
  {
    if acts == [] then s == t else Enabled(s, acts[0]) && IsRun(Apply(s, acts[0]), acts[1..], t)
  }

  // ---- what every step keeps ----

  ghost predicate Holds(s: QueueState, w: nat, id: nat) {
    w in s.workers && s.workers[w].Busy? && s.workers[w].id == id
  }

  /** A message's handler is entered at most once per try. */
  ghost predicate RowOk(s: QueueState, id: nat) {
    && id in s.queue && id < s.nextId && id in s.calls
    && s.queue[id].retryCount <= s.queue[id].maxRetry
    && s.calls[id] <= s.queue[id].retryCount + if s.queue[id].status == Pending then 0 else 1
  }

  /** A busy worker holds a running row, as it was when read. */
  ghost predicate WorkerOk(s: QueueState, w: nat) {
    w in s.workers && (s.workers[w].Busy? ==>
                         && s.workers[w].id in s.queue && s.workers[w].id in s.calls
                         && s.queue[s.workers[w].id] == s.workers[w].msg.(status := Running)
                         && (s.workers[w].phase == Claimed ==> s.calls[s.workers[w].id] <= s.workers[w].msg.retryCount))
  }

  ghost predicate HeldOnce(s: QueueState) {
    forall v, w, id :: Holds(s, v, id) && Holds(s, w, id) ==> v == w
  }

  ghost predicate Inv(s: QueueState) {
    && (forall id :: id in s.queue ==> RowOk(s, id))
    && (forall w :: w in s.workers ==> WorkerOk(s, w))
    && HeldOnce(s)
  }

  /** Idle workers, and only untouched messages in the table. */
  ghost predicate Init(s: QueueState) {
    && (forall w :: w in s.workers ==> s.workers[w] == Idle)
    && forall id :: id in s.queue ==>
                      && id < s.nextId && id in s.calls && s.calls[id] == 0
                      && s.queue[id].status == Pending && s.queue[id].retryCount == 0
  }

  lemma InitInv(s: QueueState)
    requires Init(s)
    ensures Inv(s)
  {
  }

  lemma HeldOnceKept(s: QueueState, a: QueueAction)
    requires Inv(s) && Enabled(s, a)
    ensures HeldOnce(Apply(s, a))
  {
    var t := Apply(s, a);
    forall v, w, id | Holds(t, v, id) && Holds(t, w, id)
      ensures v == w
    {
      if a.Fetch? {
        assert v != a.w ==> WorkerOk(s, v) && Holds(s, v, id);
        assert w != a.w ==> WorkerOk(s, w) && Holds(s, w, id);
      } else {
        assert Holds(s, v, id) && Holds(s, w, id);
      }
    }
  }

  lemma WorkerKept(s: QueueState, a: QueueAction, w: nat)
    requires Inv(s) && Enabled(s, a) && w in s.workers
    ensures WorkerOk(Apply(s, a), w)
  {
    assert WorkerOk(s, w);
    if s.workers[w].Busy? {
      assert RowOk(s, s.workers[w].id) && Holds(s, w, s.workers[w].id);
      if a.Lookup? || a.Settle? {
        assert WorkerOk(s, a.w) && Holds(s, a.w, s.workers[a.w].id);
      }
    } else if a.Fetch? {
      assert RowOk(s, a.id);
    }
  }

  lemma RowKept(s: QueueState, a: QueueAction, id: nat)
    requires Inv(s) && Enabled(s, a) && id in Apply(s, a).queue
    ensures RowOk(Apply(s, a), id)
  {
    if a.Lookup? || a.Settle? {
      assert WorkerOk(s, a.w);
    }
    if id in s.queue {
      assert RowOk(s, id);
    }
  }

  lemma StepKeepsInv(s: QueueState, a: QueueAction)
    requires Inv(s) && Enabled(s, a)
    ensures Inv(Apply(s, a))
  {
    var t := Apply(s, a);
    HeldOnceKept(s, a);
    forall w | w in t.workers
      ensures WorkerOk(t, w)
    {
      WorkerKept(s, a, w);
    }
    forall id | id in t.queue
      ensures RowOk(t, id)
    {
      RowKept(s, a, id);
    }
  }

  /** A settled row stays as it is, and a message never changes what it asks for. */
  ghost predicate RowFollows(before: DelayMessage, after: DelayMessage) {
    && (before.status == Success || before.status == Failed ==> after == before)
    && after.topic == before.topic && after.bizId == before.bizId && after.payload == before.payload
    && after.maxRetry == before.maxRetry && after.retryCount >= before.retryCount
  }

  lemma StepFollows(s: QueueState, a: QueueAction, id: nat)
    requires Inv(s) && Enabled(s, a) && id in s.queue
    ensures id in Apply(s, a).queue && RowFollows(s.queue[id], Apply(s, a).queue[id])
  {
    assert RowOk(s, id);
    if a.Lookup? || a.Settle? {
      assert WorkerOk(s, a.w);
    }
  }

  lemma OnlyPublishAdds(s: QueueState, a: QueueAction)
    requires Enabled(s, a)
    ensures Apply(s, a).queue.Keys == s.queue.Keys + if a.Publish? then {s.nextId} else {}
  {
  }

  lemma WorkersStay(s: QueueState, a: QueueAction)
    requires Enabled(s, a)
    ensures Apply(s, a).workers.Keys == s.workers.Keys
    ensures !a.Register? ==> Apply(s, a).topics == s.topics
  {
  }

  /** A worker lets go of a message only by settling it, by crashing, or for want of a handler. */
  lemma HolderLetsGo(s: QueueState, a: QueueAction, w: nat, id: nat)
    requires Enabled(s, a) && Holds(s, w, id)
    ensures Holds(Apply(s, a), w, id)
            || (a.Settle? && a.w == w) || (a.Crash? && a.w == w)
            || (a.Lookup? && a.w == w && s.workers[w].msg.topic !in s.topics)
  {
  }

  /** A row becomes Success only when the worker that holds it settles it after a nil. */
  lemma SuccessIsSettled(s: QueueState, a: QueueAction, id: nat)
    requires Enabled(s, a) && id in s.queue && !a.Publish?
    ensures Apply(s, a).queue[id].status == Success ==>
              || s.queue[id].status == Success
              || (a.Settle? && Holds(s, a.w, id) && s.workers[a.w].phase == Returned(true))
  {
  }

  /** Settling, unless it is lost, ends the running of a message. */
  lemma SettleEnds(s: QueueState, a: QueueAction, id: nat)
    requires Enabled(s, a) && a.Settle? && Holds(s, a.w, id)
    ensures Apply(s, a).queue[id].status != Running || a.lost
  {
  }

  /** A row becomes Failed only without a handler or after an error. */
  lemma FailedIsSettled(s: QueueState, a: QueueAction, id: nat)
    requires Enabled(s, a) && id in s.queue && !a.Publish?
    ensures Apply(s, a).queue[id].status == Failed ==>
              || s.queue[id].status == Failed
              || (a.Lookup? && Holds(s, a.w, id) && s.workers[a.w].msg.topic !in s.topics)
              || (a.Settle? && Holds(s, a.w, id) && s.workers[a.w].phase == Returned(false))
  {
  }

  /** A row becomes Running only when it is claimed. */
  lemma RunningIsClaimed(s: QueueState, a: QueueAction, id: nat)
    requires Enabled(s, a) && id in s.queue && !a.Publish?
    ensures Apply(s, a).queue[id].status == Running ==>
              || s.queue[id].status == Running
              || (a.Fetch? && a.id == id && Holds(Apply(s, a), a.w, id))
              || (a.FetchLost? && a.id == id)
  {
  }

  /** A row becomes running only when it is taken, and it is taken only when it is pending,
      due, and held by nobody. */
  lemma TakenOnlyWhenDue(s: QueueState, a: QueueAction, id: nat)
    requires Inv(s) && Enabled(s, a) && id in s.queue && s.queue[id].status != Running
    ensures Apply(s, a).queue[id].status == Running ==>
              && ((a.Fetch? && a.id == id) || (a.FetchLost? && a.id == id))
              && s.queue[id].status == Pending && s.queue[id].executeTime <= s.now
    ensures forall w :: !Holds(s, w, id)
  {
    if a.Lookup? || a.Settle? {
      assert WorkerOk(s, a.w);
    }
    forall w
      ensures !Holds(s, w, id)
    {
      if w in s.workers {
        assert WorkerOk(s, w);
      }
    }
  }

  /** Whole runs, with any number of workers, lost updates and crashes included: a message
      is held by at most one worker, its handler is entered at most maxRetry + 1 times, its
      retry count never exceeds its limit, and once Success or Failed it never changes. */
  lemma {:induction false} EveryRunIsSafe(s: QueueState, acts: seq<QueueAction>, t: QueueState)
    requires Inv(s) && IsRun(s, acts, t)
    ensures Inv(t)
    ensures forall id :: id in s.queue ==> id in t.queue && RowFollows(s.queue[id], t.queue[id])
    ensures forall id :: id in t.queue ==>
                           && t.queue[id].retryCount <= t.queue[id].maxRetry
                           && id in t.calls && t.calls[id] <= t.queue[id].maxRetry + 1
    ensures forall v, w, id :: Holds(t, v, id) && Holds(t, w, id) ==> v == w
    decreases |acts|
  {
    if acts != [] {
      var m := Apply(s, acts[0]);
      StepKeepsInv(s, acts[0]);
      EveryRunIsSafe(m, acts[1..], t);
      forall id | id in s.queue
        ensures id in t.queue && RowFollows(s.queue[id], t.queue[id])
      {
        StepFollows(s, acts[0], id);
      }
    }
    forall id | id in t.queue
      ensures t.queue[id].retryCount <= t.queue[id].maxRetry
      ensures id in t.calls && t.calls[id] <= t.queue[id].maxRetry + 1
    {
      assert RowOk(t, id);
    }
  }

  // ---- how often, and how late, a message is tried ----

  /** The handler was entered once for every retry that was granted, and once more if the
      message is being tried or has settled. A message fails only after its last retry, or
      for want of a handler. */
  ghost predicate RowTried(s: QueueState, known: set<Id>, id: nat) {
    && id in s.queue && id in s.calls
    && var m := s.queue[id];
       && (m.status == Pending ==> s.calls[id] == m.retryCount)
       && (m.status == Success ==> s.calls[id] == m.retryCount + 1)
       && (m.status == Failed && m.topic in known ==> m.retryCount == m.maxRetry && s.calls[id] == m.maxRetry + 1)
       && (m.status != Pending ==> m.executeTime <= s.now)
  }

  ghost predicate WorkerTried(s: QueueState, w: nat) {
    w in s.workers && (s.workers[w].Busy? ==>
                         && s.workers[w].id in s.calls && s.workers[w].msg.executeTime <= s.now
                         && s.calls[s.workers[w].id] ==
                            s.workers[w].msg.retryCount + if s.workers[w].phase == Claimed then 0 else 1)
  }

  /** `known`: topics that have a handler all the time. */
  ghost predicate Tried(s: QueueState, known: set<Id>) {
    && Inv(s) && known <= s.topics
    && (forall id :: id in s.queue ==> RowTried(s, known, id))
    && (forall w :: w in s.workers ==> WorkerTried(s, w))
  }

  lemma InitTried(s: QueueState)
    requires Init(s)
    ensures Tried(s, s.topics)
  {
  }

  lemma WorkerStaysTried(s: QueueState, known: set<Id>, a: QueueAction, w: nat)
    requires Tried(s, known) && Enabled(s, a) && w in s.workers
    ensures WorkerTried(Apply(s, a), w)
  {
    assert WorkerTried(s, w) && WorkerOk(s, w);
    if s.workers[w].Busy? {
      assert RowOk(s, s.workers[w].id) && Holds(s, w, s.workers[w].id);
      if a.Lookup? {
        assert Holds(s, a.w, s.workers[a.w].id);
      }
    } else if a.Fetch? {
      assert RowTried(s, known, a.id);
    }
  }

  lemma RowStaysTried(s: QueueState, known: set<Id>, a: QueueAction, id: nat)
    requires Tried(s, known) && Enabled(s, a) && id in Apply(s, a).queue
    ensures RowTried(Apply(s, a), known, id)
  {
    if a.Lookup? || a.Settle? {
      assert WorkerOk(s, a.w) && WorkerTried(s, a.w);
      assert RowOk(s, s.workers[a.w].id);
    }
    if id in s.queue {
      assert RowTried(s, known, id) && RowOk(s, id);
    }
  }

  lemma StepStaysTried(s: QueueState, known: set<Id>, a: QueueAction)
    requires Tried(s, known) && Enabled(s, a)
    ensures Tried(Apply(s, a), known)
  {
    hide RowTried, WorkerTried, Inv;
    var t := Apply(s, a);
    StepKeepsInv(s, a);
    WorkersStay(s, a);
    forall w | w in t.workers
      ensures WorkerTried(t, w)
    {
      WorkerStaysTried(s, known, a, w);
    }
    forall id | id in t.queue
      ensures RowTried(t, known, id)
    {
      RowStaysTried(s, known, a, id);
    }
  }

  lemma {:induction false} RunStaysTried(s: QueueState, known: set<Id>, acts: seq<QueueAction>, t: QueueState)
    requires Tried(s, known) && IsRun(s, acts, t)
    ensures Tried(t, known)
    decreases |acts|
  {
    hide Tried, Apply, Enabled;
    if acts != [] {
      StepStaysTried(s, known, acts[0]);
      RunStaysTried(Apply(s, acts[0]), known, acts[1..], t);
    }
  }

  /** In every run, whatever is lost or crashes: a message whose topic had its handler from
      the beginning fails only after all its retries, its handler having been entered
      maxRetry + 1 times; a waiting message was tried once for each retry it was granted. */
  lemma FailedAfterAllTries(s: QueueState, acts: seq<QueueAction>, t: QueueState, id: nat)
    requires Init(s) && IsRun(s, acts, t) && id in t.queue && t.queue[id].topic in s.topics
    ensures id in t.calls
    ensures t.queue[id].status == Failed ==>
              t.queue[id].retryCount == t.queue[id].maxRetry && t.calls[id] == t.queue[id].maxRetry + 1
    ensures t.queue[id].status == Success ==> t.calls[id] == t.queue[id].retryCount + 1
    ensures t.queue[id].status == Pending ==> t.calls[id] == t.queue[id].retryCount
  {
    InitTried(s);
    RunStaysTried(s, s.topics, acts, t);
    assert RowTried(t, s.topics, id);
  }

  /** Since it was first due at `first`, the row has waited out all its retries. */
  ghost predicate WaitedOut(m: DelayMessage, first: int) {
    m.executeTime >= first + (PowerOfTwo(m.retryCount) - 1) * SECOND
  }

  lemma StepWaitsOut(s: QueueState, known: set<Id>, a: QueueAction, id: nat, first: int)
    requires Tried(s, known) && Enabled(s, a) && id in s.queue && WaitedOut(s.queue[id], first)
    ensures id in Apply(s, a).queue && WaitedOut(Apply(s, a).queue[id], first)
  {
    hide Backoff, PowerOfTwo;
    assert RowOk(s, id);
    if a.Lookup? || a.Settle? {
      assert WorkerOk(s, a.w) && WorkerTried(s, a.w);
      BackoffDoubles(s.workers[a.w].msg.retryCount);
    }
  }

  /** After n retries a message is due at least 1 + 2 + ... + 2^(n-1) seconds, 2^n - 1, after
      it was first due. */
  lemma {:induction false} RetriesWaitLonger(s: QueueState, known: set<Id>, acts: seq<QueueAction>, t: QueueState,
                                             id: nat, first: int)
    requires Tried(s, known) && IsRun(s, acts, t) && id in s.queue && WaitedOut(s.queue[id], first)
    ensures id in t.queue && t.queue[id].executeTime >= first + (PowerOfTwo(t.queue[id].retryCount) - 1) * SECOND
    ensures t.queue[id].status != Pending ==> t.queue[id].executeTime <= t.now
    decreases |acts|
  {
    if acts == [] {
      assert RowTried(t, known, id);
    } else {
      hide Tried, Apply, Enabled, WaitedOut;
      StepStaysTried(s, known, acts[0]);
      StepWaitsOut(s, known, acts[0], id, first);
      RetriesWaitLonger(Apply(s, acts[0]), known, acts[1..], t, id, first);
    }
  }

  // ---- the consumer's own methods ----

  /** One worker of the pool: the table, the handler registry and the clock are shared, the
      other workers stand still while its methods run. */
  class Consumer {
    var queue: Queue
    var nextId: nat
    var now: int
    var handlers: set<Id>
    const me: nat
    ghost var work: map<nat, Work>
    ghost var calls: map<nat, nat>

    ghost function State(): QueueState
      reads this
    {
      QueueState(queue, nextId, now, handlers, work, calls)
    }

    ghost predicate Ready()
      reads this
    {
      me in work && work[me] == Idle
    }

    constructor (queue: Queue, nextId: nat, now: int, me: nat, ghost others: map<nat, Work>, ghost calls: map<nat, nat>)
      ensures this.me == me && Ready()
      ensures State() == QueueState(queue, nextId, now, {}, others[me := Idle], calls)
    {
      this.queue, this.nextId, this.now, this.handlers, this.me := queue, nextId, now, {}, me;
      this.work, this.calls := others[me := Idle], calls;
    }

    method RegisterTopic(topic: Id)
      modifies this`handlers
      ensures State() == Apply(old(State()), Register(topic))
    {
      handlers := handlers + {topic};
    }

    /** The wall clock goes on while the worker works or waits. */
    method TimePasses(elapsed: nat)
      modifies this`now
      ensures State() == Apply(old(State()), Tick(elapsed))
    {
      now := now + elapsed;
    }

    /** The claim transaction: nothing, or exactly one claimable row marked running. */
    method FetchOne(locked: set<nat>) returns (msg: Option<(nat, DelayMessage)>)
      requires Ready()
      modifies this`queue, this`work
      ensures msg.None? ==> State() == old(State()) && forall k :: Due(queue, now, k) ==> k in locked
      ensures msg.None? <==> forall k :: k in old(queue) && k !in locked ==>
                                           old(queue)[k].status != Pending || old(queue)[k].executeTime > now
      ensures msg.Some? ==> var (id, m) := msg.value;
                            && m.status == Pending && m.executeTime <= now
                            && queue == old(queue)[id := m.(status := Running)]
      ensures msg.Some? ==> && Claimable(old(queue), now, locked, msg.value.0)
                            && msg.value.1 == old(queue)[msg.value.0]
                            && State() == Apply(old(State()), Fetch(me, msg.value.0, locked))
    {
      msg := EarliestDue(locked);
      if msg.Some? {
        var id := msg.value.0;
        queue := WithStatus(queue, id, Running);
        work := work[me := Busy(id, msg.value.1, Claimed)];
      }
    }

    method EarliestDue(locked: set<nat>) returns (msg: Option<(nat, DelayMessage)>)
      ensures msg.None? ==> forall k :: Due(queue, now, k) ==> k in locked
      ensures msg.Some? ==> Claimable(queue, now, locked, msg.value.0) && msg.value.1 == queue[msg.value.0]
    {
      msg := None;
      var pending := queue.Keys;
      while pending != {}
        invariant pending <= queue.Keys
        invariant msg.None? ==> forall k :: Due(queue, now, k) && k !in pending ==> k in locked
        invariant msg.Some? ==> && Due(queue, now, msg.value.0) && msg.value.0 !in locked
                                && msg.value.1 == queue[msg.value.0]
                                && forall k :: Due(queue, now, k) && k !in locked && k !in pending ==>
                                                 msg.value.1.executeTime <= queue[k].executeTime
      {
        var k :| k in pending;
        pending := pending - {k};
        if k !in locked && queue[k].status == Pending && queue[k].executeTime <= now {
          if msg.None? || queue[k].executeTime < msg.value.1.executeTime {
            msg := Some((k, queue[k]));
          }
        }
      }
    }

    ghost predicate Holding(id: nat, msg: DelayMessage, phase: Phase)
      reads this
    {
      me in work && work[me] == Busy(id, msg, phase) && id in queue
    }

    /** One message from lookup to its final status update. The handler is a black box: it
        may publish, and it returns nil, an error, or panics into an error. */
    method ProcessOne(id: nat, msg: DelayMessage, published: seq<QueueAction>, ok: bool, lost: bool)
      returns (ghost acts: seq<QueueAction>)
      requires Holding(id, msg, Claimed)
      requires forall k :: k in queue ==> k < nextId
      requires forall a :: a in published ==> a.Publish?
      modifies this`queue, this`work, this`calls, this`nextId
      ensures IsRun(old(State()), acts, State()) && Ready()
      ensures acts == if msg.topic in handlers
                      then [Lookup(me, lost)] + published + [Return(me, ok), Settle(me, lost)]
                      else [Lookup(me, lost)]
    {
      ghost var s0 := State();
      acts := [Lookup(me, lost)];
      OneStep(s0, acts[0]);
      var found := LookupHandler(id, msg, lost);
      if !found {
        return;
      }
      for i := 0 to |published|
        invariant acts == [Lookup(me, lost)] + published[..i]
        invariant IsRun(s0, acts, State())
        invariant Holding(id, msg, Called)
        invariant forall k :: k in queue ==> k < nextId
      {
        assert published[..i + 1] == published[..i] + [published[i]];
        RunAppend(s0, acts, State(), published[i]);
        acts := acts + [published[i]];
        PublishRow(published[i]);
      }
      assert published[..|published|] == published;
      RunAppend(s0, acts, State(), Return(me, ok));
      HandlerReturns(id, msg, ok);
      RunAppend(s0, acts + [Return(me, ok)], State(), Settle(me, lost));
      EndOfActs(acts, Return(me, ok), Settle(me, lost));
      acts := acts + [Return(me, ok)] + [Settle(me, lost)];
      SettleMessage(id, msg, ok, lost);
    }

    /** A message without a handler fails at once; otherwise its handler is entered. */
    method LookupHandler(id: nat, msg: DelayMessage, lost: bool) returns (found: bool)
      requires Holding(id, msg, Claimed)
      modifies this`queue, this`work, this`calls
      ensures found == (msg.topic in handlers)
      ensures State() == Apply(old(State()), Lookup(me, lost))
      ensures queue == if found || lost then old(queue) else old(queue)[id := old(queue)[id].(status := Failed)]
      ensures if found then Holding(id, msg, Called) else Ready()
    {
      found := msg.topic in handlers;
      if found {
        work := work[me := Busy(id, msg, Called)];
        calls := calls[id := (if id in calls then calls[id] else 0) + 1];
      } else {
        if !lost {
          MarkFailed(id);
        }
        work := work[me := Idle];
      }
    }

    ghost method HandlerReturns(id: nat, msg: DelayMessage, ok: bool)
      requires Holding(id, msg, Called)
      modifies this`work
      ensures Holding(id, msg, Returned(ok))
      ensures State() == Apply(old(State()), Return(me, ok))
    {
      work := work[me := Busy(id, msg, Returned(ok))];
    }

    /** The final status update, whose own error is ignored. */
    method SettleMessage(id: nat, msg: DelayMessage, ok: bool, lost: bool)
      requires Holding(id, msg, Returned(ok))
      modifies this`queue, this`work
      ensures Ready()
      ensures State() == Apply(old(State()), Settle(me, lost))
      ensures lost ==> queue == old(queue)
      ensures !lost && ok ==> queue == old(queue)[id := old(queue)[id].(status := Success)]
    {
      if !lost {
        if ok {
          queue := WithStatus(queue, id, Success);
        } else {
          HandleRetry(id, msg);
        }
      }
      work := work[me := Idle];
    }

    method HandleRetry(id: nat, msg: DelayMessage)
      requires id in queue
      modifies this`queue
      ensures queue == AfterError(old(queue), id, msg, now)
      ensures id in queue && queue - {id} == old(queue) - {id}
      ensures msg.retryCount < msg.maxRetry ==>
                queue[id] == old(queue)[id].(status := Pending, retryCount := msg.retryCount + 1,
                                             executeTime := now + Backoff(msg.retryCount))
      ensures msg.retryCount >= msg.maxRetry ==> queue[id] == old(queue)[id].(status := Failed)
    {
      if msg.retryCount >= msg.maxRetry {
        MarkFailed(id);
        return;
      }
      var nextTime := now + Backoff(msg.retryCount);
      queue := queue[id := queue[id].(status := Pending, retryCount := msg.retryCount + 1, executeTime := nextTime)];
    }

    method MarkFailed(id: nat)
      requires id in queue
      modifies this`queue
      ensures queue == WithStatus(old(queue), id, Failed)
    {
      queue := WithStatus(queue, id, Failed);
    }

    method PublishRow(a: QueueAction)
      requires a.Publish?
      modifies this`queue, this`nextId, this`calls
      ensures State() == Apply(old(State()), a) && nextId == old(nextId) + 1
      ensures queue == old(queue)[old(nextId) := DelayMessage(a.bizId, a.topic, a.executeTime, Pending, a.payload, 0,
                                                              a.maxRetry)]
    {
      queue := queue[nextId := DelayMessage(a.bizId, a.topic, a.executeTime, Pending, a.payload, 0, a.maxRetry)];
      calls := calls[nextId := 0];
      nextId := nextId + 1;
    }
  }

  lemma EndOfActs(acts: seq<QueueAction>, a: QueueAction, b: QueueAction)
    ensures acts + [a] + [b] == acts + [a, b]
  {
  }

  lemma OneStep(s: QueueState, a: QueueAction)
    requires Enabled(s, a)
    ensures IsRun(s, [a], Apply(s, a))
  {
    assert [a][1..] == [];
  }

  lemma {:induction false} RunAppend(s: QueueState, acts: seq<QueueAction>, t: QueueState, a: QueueAction)
    requires IsRun(s, acts, t) && Enabled(t, a)
    ensures IsRun(s, acts + [a], Apply(t, a))
    decreases |acts|
  {
    if acts == [] {
      OneStep(s, a);
      assert [] + [a] == [a];
    } else {
      RunAppend(Apply(s, acts[0]), acts[1..], t, a);
      assert (acts + [a])[1..] == acts[1..] + [a];
    }
  }
}
