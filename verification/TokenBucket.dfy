/** utils/distributed_rate_limiter.go: the token bucket script, over real numbers. */
module TokenBucket {
  import opened Common

  datatype Config = Config(capacity: real, rate: real) {
    ghost predicate Valid() {
      capacity >= 0.0 && rate > 0.0
    }
  }

  /** The stored hash. */
  datatype Bucket = Bucket(tokens: real, last: real)

  function Min(a: real, b: real): real {
    if a <= b then a else b
  }

  function Max(a: real, b: real): real {
    if a >= b then a else b
  }

  function Ceil(x: real): (c: int)
    ensures (c - 1) as real < x <= c as real
  {
    -(-x).Floor
  }

  /** Seconds until an idle key disappears; a time that is not positive deletes it at once. */
  function Ttl(c: Config): (t: real)
    requires c.rate != 0.0
    ensures t == t.Floor as real && c.capacity / c.rate + 1.0 <= t < c.capacity / c.rate + 2.0
  {
    (Ceil(c.capacity / c.rate) + 1) as real
  }

  /** Tokens available at a call: what is stored plus the refill, at most the capacity. */
  function Filled(c: Config, b: Option<Bucket>, now: real): real {
    match b
    case None => c.capacity
    case Some(Bucket(tokens, last)) => Min(c.capacity, tokens + Max(0.0, now - last) * c.rate)
  }

  /** The script: a denial stores nothing. */
  function Step(c: Config, b: Option<Bucket>, now: real): (bool, Option<Bucket>) {
    var filled := Filled(c, b, now);
    if filled >= 1.0 then (true, Some(Bucket(filled - 1.0, now))) else (false, b)
  }

  /** The reference: refill and store on every call, and never expire. */
  ghost function EagerStep(c: Config, b: Option<Bucket>, now: real): (bool, Option<Bucket>) {
    var filled := Filled(c, b, now);
    if filled >= 1.0 then (true, Some(Bucket(filled - 1.0, now))) else (false, Some(Bucket(filled, now)))
  }

  // ---- any clock ----

  ghost predicate InRange(c: Config, b: Option<Bucket>) {
    b.Some? ==> 0.0 <= b.value.tokens <= c.capacity
  }

  /** Stored tokens stay within the capacity whatever the clock does. */
  lemma StepStaysInRange(c: Config, b: Option<Bucket>, now: real)
    requires c.Valid() && InRange(c, b)
    ensures InRange(c, Step(c, b, now).1) && InRange(c, EagerStep(c, b, now).1)
    ensures 0.0 <= Filled(c, b, now) <= c.capacity
  {
    if b.Some? {
      Product(Max(0.0, now - b.value.last), c.rate);
    }
  }

  lemma Product(x: real, y: real)
    requires x >= 0.0 && y >= 0.0
    ensures x * y >= 0.0
  {
  }

  // ---- a clock that never goes back ----

  /** One call; `expired` says that the key disappeared since the call before. */
  datatype Call = Call(now: real, expired: bool)

  /** Times never decrease, and a key only disappears after being idle for its time to live,
      which every call starts anew. */
  ghost predicate Timely(c: Config, clock: real, calls: seq<Call>)
    requires c.rate > 0.0
    decreases |calls|
  {
    calls == [] ||
    (&& clock <= calls[0].now && (calls[0].expired ==> calls[0].now - clock >= Ttl(c))
     && Timely(c, calls[0].now, calls[1..]))
  }

  ghost function Seen(b: Option<Bucket>, call: Call): Option<Bucket> {
    if call.expired then None else b
  }

  /** What the script answers to each call. */
  ghost function Decisions(c: Config, b: Option<Bucket>, calls: seq<Call>): (r: seq<bool>)
    ensures |r| == |calls|
    decreases |calls|
  {
    if calls == [] then [] else
      var (ok, next) := Step(c, Seen(b, calls[0]), calls[0].now);
      [ok] + Decisions(c, next, calls[1..])
  }

  ghost function EagerDecisions(c: Config, b: Option<Bucket>, calls: seq<Call>): (r: seq<bool>)
    ensures |r| == |calls|
    decreases |calls|
  {
    if calls == [] then [] else
      var (ok, next) := EagerStep(c, b, calls[0].now);
      [ok] + EagerDecisions(c, next, calls[1..])
  }

  /** Stored no later than the clock, with tokens in range. */
  ghost predicate Sound(c: Config, b: Option<Bucket>, clock: real) {
    InRange(c, b) && (b.Some? ==> b.value.last <= clock)
  }

  /** Two buckets nobody can tell apart from now on. */
  ghost predicate Alike(c: Config, a: Option<Bucket>, b: Option<Bucket>, clock: real) {
    forall now :: now >= clock ==> Filled(c, a, now) == Filled(c, b, now)
  }

  /** After its time to live without a call, a bucket is full again. */
  lemma IdleIsFull(c: Config, b: Option<Bucket>, clock: real, now: real)
    requires c.Valid() && Sound(c, b, clock) && now - clock >= Ttl(c)
    ensures Filled(c, b, now) == Filled(c, None, now) == c.capacity
  {
    if b.Some? {
      var idle := now - b.value.last;
      assert idle >= c.capacity / c.rate;
      Quotient(c.capacity, c.rate, idle);
    }
  }

  lemma Quotient(a: real, r: real, x: real)
    requires r > 0.0 && a >= 0.0 && x >= a / r
    ensures x * r >= a && x >= 0.0
  {
    assert a / r * r == a;
    Product(x - a / r, r);
    assert (x - a / r) * r == x * r - a / r * r;
  }

  /** Refilling in two parts is refilling at once. */
  lemma RefillSplits(c: Config, b: Option<Bucket>, mid: real, now: real)
    requires c.Valid() && Sound(c, b, mid) && mid <= now
    ensures Filled(c, Some(Bucket(Filled(c, b, mid), mid)), now) == Filled(c, b, now)
  {
    Product(now - mid, c.rate);
    if b.Some? {
      var last := b.value.last;
      assert (mid - last) * c.rate + (now - mid) * c.rate == (now - last) * c.rate;
    }
  }

  /** One call keeps the script's bucket and the eager one alike, answer included. */
  lemma StepKeepsAlike(c: Config, a: Option<Bucket>, b: Option<Bucket>, clock: real, call: Call)
    requires c.Valid() && Sound(c, a, clock) && Sound(c, b, clock) && Alike(c, a, b, clock)
    requires Timely(c, clock, [call])
    ensures Step(c, Seen(a, call), call.now).0 == EagerStep(c, b, call.now).0
    ensures Sound(c, Step(c, Seen(a, call), call.now).1, call.now) && Sound(c, EagerStep(c, b, call.now).1, call.now)
    ensures Alike(c, Step(c, Seen(a, call), call.now).1, EagerStep(c, b, call.now).1, call.now)
  {
    var seen, now := Seen(a, call), call.now;
    if call.expired {
      IdleIsFull(c, a, clock, now);
    }
    assert Filled(c, seen, now) == Filled(c, b, now);
    StepStaysInRange(c, seen, now);
    StepStaysInRange(c, b, now);
    if Filled(c, b, now) < 1.0 {
      forall later | later >= now
        ensures Filled(c, seen, later) == Filled(c, Some(Bucket(Filled(c, b, now), now)), later)
      {
        RefillSplits(c, seen, now, later);
      }
    }
  }

  /** Storing nothing on a denial and letting idle keys expire is unobservable: the script
      answers like a bucket that stores every refill and never expires. */
  lemma {:induction false} LazyIsEager(c: Config, a: Option<Bucket>, b: Option<Bucket>, clock: real, calls: seq<Call>)
    requires c.Valid() && Sound(c, a, clock) && Sound(c, b, clock) && Alike(c, a, b, clock)
    requires Timely(c, clock, calls)
    ensures Decisions(c, a, calls) == EagerDecisions(c, b, calls)
    decreases |calls|
  {
    if calls != [] {
      hide Alike, Sound, Step, EagerStep;
      assert [calls[0]][1..] == [];
      StepKeepsAlike(c, a, b, clock, calls[0]);
      var now := calls[0].now;
      LazyIsEager(c, Step(c, Seen(a, calls[0]), now).1, EagerStep(c, b, now).1, now, calls[1..]);
    }
  }

  // ---- the admission bound ----

  ghost function Refill(c: Config, from: real, to: real): real {
    c.rate * (to - from)
  }

  lemma RefillAdds(c: Config, a: real, b: real, d: real)
    ensures Refill(c, a, b) + Refill(c, b, d) == Refill(c, a, d) && Refill(c, a, a) == 0.0
  {
    assert c.rate * (b - a) + c.rate * (d - b) == c.rate * (d - a);
  }

  ghost function Admitted(decisions: seq<bool>): nat
    decreases |decisions|
  {
    if decisions == [] then 0 else (if decisions[0] then 1 else 0) + Admitted(decisions[1..])
  }

  /** Admissions from a bucket: at most what it holds at the first call plus the refill
      until the last. */
  lemma {:induction false} AdmittedWithin(c: Config, b: Option<Bucket>, clock: real, calls: seq<Call>)
    requires c.Valid() && Sound(c, b, clock) && Timely(c, clock, calls) && calls != []
    ensures calls[0].now <= calls[|calls| - 1].now
    ensures Admitted(Decisions(c, b, calls)) as real <=
            Filled(c, Seen(b, calls[0]), calls[0].now) + Refill(c, calls[0].now, calls[|calls| - 1].now)
    decreases |calls|
  {
    hide Filled, Step, Ttl, Sound, Refill;
    var call := calls[0];
    var seen := Seen(b, call);
    var next := Step(c, seen, call.now).1;
    StepPays(c, b, clock, call);
    if |calls| > 1 {
      var t, last := calls[1].now, calls[|calls| - 1].now;
      AdmittedWithin(c, next, call.now, calls[1..]);
      RefillBound(c, next, call.now, calls[1]);
      RefillAdds(c, call.now, t, last);
    } else {
      RefillAdds(c, call.now, call.now, call.now);
      assert Decisions(c, b, calls) == [Step(c, seen, call.now).0];
    }
  }

  /** An admission costs one token, a denial none. */
  lemma StepPays(c: Config, b: Option<Bucket>, clock: real, call: Call)
    requires c.Valid() && Sound(c, b, clock) && clock <= call.now
    ensures var (ok, next) := Step(c, Seen(b, call), call.now);
            && Sound(c, next, call.now) && Filled(c, next, call.now) >= 0.0
            && Filled(c, next, call.now) + (if ok then 1.0 else 0.0) == Filled(c, Seen(b, call), call.now)
  {
    StepStaysInRange(c, Seen(b, call), call.now);
    var (ok, next) := Step(c, Seen(b, call), call.now);
    if ok {
      assert Max(0.0, call.now - next.value.last) * c.rate == 0.0;
    }
  }

  /** Between two calls a bucket gains no more than the refill, expired or not. */
  lemma RefillBound(c: Config, b: Option<Bucket>, clock: real, call: Call)
    requires c.Valid() && Sound(c, b, clock) && clock <= call.now && (call.expired ==> call.now - clock >= Ttl(c))
    ensures Filled(c, Seen(b, call), call.now) <= Filled(c, b, clock) + Refill(c, clock, call.now)
  {
    if call.expired {
      IdleIsFull(c, b, clock, call.now);
    }
    RefillSplits(c, b, clock, call.now);
    Product(call.now - clock, c.rate);
  }

  ghost function StateAfter(c: Config, b: Option<Bucket>, calls: seq<Call>): Option<Bucket>
    decreases |calls|
  {
    if calls == [] then b else StateAfter(c, Step(c, Seen(b, calls[0]), calls[0].now).1, calls[1..])
  }

  lemma {:induction false} DecisionsFrom(c: Config, b: Option<Bucket>, clock: real, calls: seq<Call>, i: nat)
    requires c.Valid() && Sound(c, b, clock) && Timely(c, clock, calls) && i < |calls|
    ensures var at, from := StateAfter(c, b, calls[..i]), if i == 0 then clock else calls[i - 1].now;
            && Decisions(c, b, calls)[i..] == Decisions(c, at, calls[i..])
            && Sound(c, at, from) && Timely(c, from, calls[i..])
    decreases i
  {
    if i > 0 {
      var call := calls[0];
      var seen := Seen(b, call);
      StepStaysInRange(c, seen, call.now);
      var next := Step(c, seen, call.now).1;
      DecisionsFrom(c, next, call.now, calls[1..], i - 1);
      assert calls[..i][1..] == calls[1..][..i - 1];
      assert calls[1..][i - 1..] == calls[i..];
      assert i > 1 ==> calls[1..][i - 2] == calls[i - 1];
    }
  }

  lemma {:induction false} DecisionsTake(c: Config, b: Option<Bucket>, clock: real, calls: seq<Call>, n: nat)
    requires c.Valid() && Timely(c, clock, calls) && n <= |calls|
    ensures Decisions(c, b, calls)[..n] == Decisions(c, b, calls[..n]) && Timely(c, clock, calls[..n])
    decreases n
  {
    if n > 0 {
      DecisionsTake(c, Step(c, Seen(b, calls[0]), calls[0].now).1, calls[0].now, calls[1..], n - 1);
      assert calls[..n][1..] == calls[1..][..n - 1];
    }
  }

  /** In every sequence of calls whose clock never goes back, and between any two of its
      calls, at most capacity + rate * elapsed are admitted. */
  lemma AdmissionBound(c: Config, clock: real, calls: seq<Call>, i: nat, j: nat)
    requires c.Valid() && Timely(c, clock, calls) && i <= j < |calls|
    ensures Admitted(Decisions(c, None, calls)[i..j + 1]) as real <= c.capacity + Refill(c, calls[i].now, calls[j].now)
  {
    hide Step, Timely, Sound, Filled, Decisions, Admitted, Seen, StateAfter;
    var part := calls[i..j + 1];
    assert Sound(c, None, clock) by {
      NewIsSound(c, clock);
    }
    DecisionsFrom(c, None, clock, calls, i);
    var at, from := StateAfter(c, None, calls[..i]), if i == 0 then clock else calls[i - 1].now;
    DecisionsTake(c, at, from, calls[i..], j + 1 - i);
    assert calls[i..][..j + 1 - i] == part;
    assert Decisions(c, None, calls)[i..j + 1] == Decisions(c, None, calls)[i..][..j + 1 - i];
    assert Decisions(c, None, calls)[i..j + 1] == Decisions(c, at, part);
    AdmittedWithin(c, at, from, part);
    assert part[0] == calls[i] && part[|part| - 1] == calls[j];
    FilledAtMost(c, Seen(at, calls[i]), calls[i].now);
  }

  lemma NewIsSound(c: Config, clock: real)
    ensures Sound(c, None, clock)
  {
  }

  lemma FilledAtMost(c: Config, b: Option<Bucket>, now: real)
    ensures Filled(c, b, now) <= c.capacity
  {
  }

  // ---- exactly when a call is denied ----

  /** What a call would find if nothing had been spilled at the capacity since call i. */
  ghost function Level(c: Config, calls: seq<Call>, answers: seq<bool>, i: nat, j: nat): real
    requires i <= j < |calls| && j <= |answers|
  {
    c.capacity + c.rate * (calls[j].now - calls[i].now) - Admitted(answers[i..j]) as real
  }

  lemma {:induction false} AdmittedAppend(a: seq<bool>, ok: bool)
    ensures Admitted(a + [ok]) == Admitted(a) + if ok then 1 else 0
    decreases |a|
  {
    if a == [] {
      assert a + [ok] == [ok] && [ok][1..] == [];
    } else {
      AdmittedAppend(a[1..], ok);
      assert (a + [ok])[1..] == a[1..] + [ok];
    }
  }

  /** What the time until a later call adds, less what the answer before it cost. */
  ghost function Gain(c: Config, ok: bool, now: real, later: real): real {
    c.rate * (later - now) - if ok then 1.0 else 0.0
  }

  /** From one call to the next, expired or not: what was left and the refill, at most the
      capacity. */
  lemma NextFilled(c: Config, b: Option<Bucket>, now: real, later: Call)
    requires c.Valid() && Sound(c, b, now) && now <= later.now && (later.expired ==> later.now - now >= Ttl(c))
    ensures var (ok, next) := Step(c, b, now);
            Filled(c, Seen(next, later), later.now) == Min(c.capacity, Filled(c, b, now) + Gain(c, ok, now, later.now))
  {
    hide Ttl, Filled, Sound, Gain, Min;
    var (ok, next) := Step(c, b, now);
    StoredRefills(c, Filled(c, b, now), ok, now, later.now);
    NextIsSound(c, b, now);
    if !ok {
      RefillSplits(c, b, now, later.now);
    }
    if later.expired {
      IdleIsFull(c, next, now, later.now);
    }
  }

  lemma StoredRefills(c: Config, filled: real, ok: bool, now: real, later: real)
    requires c.Valid() && now <= later
    ensures Filled(c, Some(Bucket(filled - if ok then 1.0 else 0.0, now)), later) ==
            Min(c.capacity, filled + Gain(c, ok, now, later))
    ensures filled - 0.0 == filled
  {
  }

  lemma NextIsSound(c: Config, b: Option<Bucket>, now: real)
    requires c.Valid() && Sound(c, b, now)
    ensures Sound(c, Step(c, b, now).1, now)
  {
    StepStaysInRange(c, b, now);
  }

  lemma LevelNext(c: Config, calls: seq<Call>, answers: seq<bool>, i: nat, j: nat)
    requires i < j < |calls| && j <= |answers|
    ensures Level(c, calls, answers, i, j) ==
            Level(c, calls, answers, i, j - 1) + Gain(c, answers[j - 1], calls[j - 1].now, calls[j].now)
  {
    hide Admitted;
    assert answers[i..j] == answers[i..j - 1] + [answers[j - 1]];
    AdmittedAppend(answers[i..j - 1], answers[j - 1]);
    assert c.rate * (calls[j].now - calls[i].now) ==
           c.rate * (calls[j - 1].now - calls[i].now) + c.rate * (calls[j].now - calls[j - 1].now);
  }

  lemma LevelNow(c: Config, calls: seq<Call>, answers: seq<bool>, j: nat)
    requires j < |calls| && j <= |answers|
    ensures Level(c, calls, answers, j, j) == c.capacity
  {
    assert answers[j..j] == [];
  }

  /** What call j finds. */
  ghost function Found(c: Config, calls: seq<Call>, j: nat): real
    requires j < |calls|
  {
    Filled(c, Seen(StateAfter(c, None, calls[..j]), calls[j]), calls[j].now)
  }

  lemma FoundNext(c: Config, clock: real, calls: seq<Call>, j: nat)
    requires c.Valid() && Timely(c, clock, calls) && j < |calls|
    ensures Decisions(c, None, calls)[j] <==> Found(c, calls, j) >= 1.0
    ensures j == 0 ==> Found(c, calls, j) == c.capacity
    ensures j + 1 < |calls| ==>
              var gain := Gain(c, Decisions(c, None, calls)[j], calls[j].now, calls[j + 1].now);
              Found(c, calls, j + 1) == Min(c.capacity, Found(c, calls, j) + gain)
  {
    hide Ttl, Filled, Decisions, StateAfter, Timely, Gain, Min;
    var at := StateAfter(c, None, calls[..j]);
    NewIsSound(c, clock);
    DecisionsFrom(c, None, clock, calls, j);
    OneCallMore(c, None, calls[..j], calls[j]);
    DecisionsTake(c, None, clock, calls, j + 1);
    assert calls[..j + 1] == calls[..j] + [calls[j]];
    assert Decisions(c, None, calls)[j] == Decisions(c, None, calls)[..j + 1][j];
    TimelyHere(c, if j == 0 then clock else calls[j - 1].now, calls[j..]);
    SeenIsSound(c, at, if j == 0 then clock else calls[j - 1].now, calls[j]);
    if j == 0 {
      FirstIsFull(c, calls);
    }
    if j + 1 < |calls| {
      assert calls[j..][1] == calls[j + 1];
      NextFilled(c, Seen(at, calls[j]), calls[j].now, calls[j + 1]);
      var (ok, next) := Step(c, Seen(at, calls[j]), calls[j].now);
      assert StateAfter(c, None, calls[..j + 1]) == next && Decisions(c, None, calls)[j] == ok;
      assert Found(c, calls, j) == Filled(c, Seen(at, calls[j]), calls[j].now);
      assert Found(c, calls, j + 1) == Filled(c, Seen(next, calls[j + 1]), calls[j + 1].now);
    }
  }

  lemma FirstIsFull(c: Config, calls: seq<Call>)
    requires calls != []
    ensures Found(c, calls, 0) == c.capacity
  {
    assert calls[..0] == [];
  }

  lemma SeenIsSound(c: Config, b: Option<Bucket>, clock: real, call: Call)
    requires Sound(c, b, clock) && clock <= call.now
    ensures Sound(c, Seen(b, call), call.now)
  {
  }

  lemma TimelyHere(c: Config, clock: real, calls: seq<Call>)
    requires c.rate > 0.0 && Timely(c, clock, calls) && calls != []
    ensures clock <= calls[0].now
    ensures |calls| > 1 ==> calls[0].now <= calls[1].now
                            && (calls[1].expired ==> calls[1].now - calls[0].now >= Ttl(c))
  {
  }

  /** The tokens that a call finds are the least of all levels. */
  lemma {:induction false} FoundIsLeast(c: Config, clock: real, calls: seq<Call>, j: nat) returns (k: nat)
    requires c.Valid() && Timely(c, clock, calls) && j < |calls|
    ensures k <= j && Found(c, calls, j) == Level(c, calls, Decisions(c, None, calls), k, j)
    ensures forall i :: 0 <= i <= j ==> Found(c, calls, j) <= Level(c, calls, Decisions(c, None, calls), i, j)
    decreases j
  {
    hide Timely, Decisions, Found, Level, Gain;
    var answers := Decisions(c, None, calls);
    k := j;
    LevelNow(c, calls, answers, j);
    if j == 0 {
      FoundNext(c, clock, calls, 0);
    } else {
      var before := FoundIsLeast(c, clock, calls, j - 1);
      FoundNext(c, clock, calls, j - 1);
      forall i | 0 <= i < j
        ensures Found(c, calls, j) <= Level(c, calls, answers, i, j)
      {
        LevelNext(c, calls, answers, i, j);
      }
      LevelNext(c, calls, answers, before, j);
      if Found(c, calls, j) < c.capacity {
        k := before;
      }
    }
  }

  /** Since some call before call j, or itself, capacity + rate * elapsed leaves less than one
      token beside those already admitted. */
  ghost predicate Exhausted(c: Config, calls: seq<Call>, answers: seq<bool>, j: nat)
    requires j < |calls| && j <= |answers|
  {
    exists i :: 0 <= i <= j && c.capacity + c.rate * (calls[j].now - calls[i].now)
                               < 1.0 + Admitted(answers[i..j]) as real
  }

  /** In every sequence of calls whose clock never goes back, a call is denied exactly when
      the admissions before it have exhausted the bucket. */
  lemma DeniedExactly(c: Config, clock: real, calls: seq<Call>, j: nat)
    requires c.Valid() && Timely(c, clock, calls) && j < |calls|
    ensures !Decisions(c, None, calls)[j] <==> Exhausted(c, calls, Decisions(c, None, calls), j)
  {
    hide Timely, Decisions, Found, Admitted;
    var answers := Decisions(c, None, calls);
    var k := FoundIsLeast(c, clock, calls, j);
    FoundNext(c, clock, calls, j);
    forall i | 0 <= i <= j
      ensures Level(c, calls, answers, i, j) ==
              c.capacity + c.rate * (calls[j].now - calls[i].now) - Admitted(answers[i..j]) as real
    {
    }
  }

  /** A call whose time lies before the last admitted one finds exactly what was stored. */
  lemma NoRefillBackwards(c: Config, stored: Bucket, now: real)
    requires c.Valid() && InRange(c, Some(stored)) && now <= stored.last
    ensures Step(c, Some(stored), now) ==
            if stored.tokens >= 1.0 then (true, Some(Bucket(stored.tokens - 1.0, now))) else (false, Some(stored))
  {
  }

  // ---- what a key has answered so far ----

  /** The calls that reached the script under one key, and its answers. */
  datatype Account = Account(calls: seq<Call>, answers: seq<bool>)

  function Find<V>(m: map<Id, V>, key: Id): Option<V> {
    if key in m then Some(m[key]) else None
  }

  ghost function AccountOf(accounts: map<Id, Account>, key: Id): Account {
    if key in accounts then accounts[key] else Account([], [])
  }

  /** A key only disappears once it has been idle for its time to live. */
  ghost predicate ExpiresIdle(c: Config, calls: seq<Call>)
    requires c.rate > 0.0
  {
    forall i :: 0 <= i < |calls| && calls[i].expired ==> i > 0 && calls[i].now - calls[i - 1].now >= Ttl(c)
  }

  /** The stored hash and deadline are those that the calls so far lead to. */
  ghost predicate Kept(c: Config, a: Account, hash: Option<Bucket>, deadline: Option<real>)
    requires c.rate > 0.0
  {
    && a.answers == Decisions(c, None, a.calls) && ExpiresIdle(c, a.calls)
    && hash == StateAfter(c, None, a.calls)
    && deadline == if hash.Some? && a.calls != [] then Some(a.calls[|a.calls| - 1].now + Ttl(c)) else None
  }

  lemma {:induction false} OneCallMore(c: Config, b: Option<Bucket>, calls: seq<Call>, call: Call)
    ensures var (ok, next) := Step(c, Seen(StateAfter(c, b, calls), call), call.now);
            && Decisions(c, b, calls + [call]) == Decisions(c, b, calls) + [ok]
            && StateAfter(c, b, calls + [call]) == next
    decreases |calls|
  {
    hide Step;
    if calls == [] {
      assert calls + [call] == [call] && [call][1..] == [];
    } else {
      OneCallMore(c, Step(c, Seen(b, calls[0]), calls[0].now).1, calls[1..], call);
      assert (calls + [call])[1..] == calls[1..] + [call];
    }
  }

  lemma NothingKept(c: Config)
    requires c.rate > 0.0
    ensures Kept(c, Account([], []), None, None)
  {
  }

  /** One call of the script, from what is stored to what is stored. */
  lemma KeptByCall(c: Config, a: Account, hash: Option<Bucket>, deadline: Option<real>, call: Call)
    requires c.rate > 0.0 && Kept(c, a, hash, deadline)
    requires call.expired <==> deadline.Some? && deadline.value <= call.now
    ensures var (ok, next) := Step(c, Seen(hash, call), call.now);
            Kept(c, Account(a.calls + [call], a.answers + [ok]), next,
                 if next.Some? then Some(call.now + Ttl(c)) else None)
  {
    hide Step, Ttl;
    OneCallMore(c, None, a.calls, call);
  }

  ghost predicate NeverBack(calls: seq<Call>) {
    forall i :: 0 < i < |calls| ==> calls[i - 1].now <= calls[i].now
  }

  /** A history whose clock never goes back is timely. */
  lemma {:induction false} KeptIsTimely(c: Config, clock: real, calls: seq<Call>, i: nat)
    requires c.rate > 0.0 && ExpiresIdle(c, calls) && NeverBack(calls) && i <= |calls|
    requires i < |calls| ==> clock == if i == 0 then calls[0].now else calls[i - 1].now
    ensures Timely(c, clock, calls[i..])
    decreases |calls| - i
  {
    hide Ttl;
    if i < |calls| {
      KeptIsTimely(c, calls[i].now, calls, i + 1);
      assert calls[i..][1..] == calls[i + 1..];
    }
  }

  // ---- the script at work ----

  datatype RedisError = RedisFailed

  /** The limiter and the keys it keeps in Redis: a hash and, once it is set, a deadline
      each. The deadlines are read on the same clock as the calls. `shortest` and `longest`
      are the least and the greatest time that EXPIRE takes. `accounts` is the history of
      each key. */
  class DistributedRateLimiter {
    const config: Config
    const shortest: real
    const longest: real
    var hashes: map<Id, Bucket>
    var deadlines: map<Id, real>
    ghost var accounts: map<Id, Account>

    constructor (config: Config, shortest: real, longest: real)
      ensures this.config == config && this.shortest == shortest && this.longest == longest
      ensures hashes == map[] && deadlines == map[] && accounts == map[] && Valid()
    {
      this.config, this.shortest, this.longest := config, shortest, longest;
      hashes, deadlines, accounts := map[], map[], map[];
      new;
      if config.Valid() {
        NothingKept(config);
      }
    }

    /** EXPIRE raises an error: the time to live is infinite or outside its range. */
    predicate Refused() {
      config.rate == 0.0 || Ttl(config) < shortest || longest < Ttl(config)
    }

    /** Every key holds what its history leads to; if EXPIRE refuses the time to live, no call
        has been answered. */
    ghost predicate Valid()
      reads this
    {
      && deadlines.Keys <= hashes.Keys && (Refused() ==> accounts == map[])
      && (config.Valid() && !Refused() ==> forall key :: KeyKept(key))
    }

    ghost predicate KeyKept(key: Id)
      requires config.Valid()
      reads this
    {
      Kept(config, AccountOf(accounts, key), Find(hashes, key), Find(deadlines, key))
    }

    ghost predicate Expired(key: Id, now: real)
      reads this
    {
      key in deadlines && deadlines[key] <= now
    }

    /** What the script finds under a key. */
    ghost function Live(key: Id, now: real): Option<Bucket>
      reads this
    {
      if Expired(key, now) then None else Find(hashes, key)
    }

    /** A key is gone once its deadline is reached. */
    method DropExpired(key: Id, now: real)
      modifies `hashes, `deadlines
      ensures Find(hashes, key) == old(Live(key, now))
      ensures Find(deadlines, key) == if old(Expired(key, now)) then None else old(Find(deadlines, key))
      ensures hashes - {key} == old(hashes) - {key} && deadlines - {key} == old(deadlines) - {key}
    {
      if key in deadlines && deadlines[key] <= now {
        hashes, deadlines := hashes - {key}, deadlines - {key};
      }
    }

    /** EXPIRE: it does nothing for a missing key and deletes the key if the time is up. */
    method Expire(key: Id, now: real)
      requires config.rate != 0.0
      modifies `hashes, `deadlines
      ensures Find(hashes, key) == if Ttl(config) <= 0.0 then None else old(Find(hashes, key))
      ensures Find(deadlines, key) == if key in hashes then Some(now + Ttl(config))
                                      else if key in old(hashes) then None
                                      else old(Find(deadlines, key))
      ensures hashes - {key} == old(hashes) - {key} && deadlines - {key} == old(deadlines) - {key}
    {
      if key in hashes {
        if Ttl(config) <= 0.0 {
          hashes, deadlines := hashes - {key}, deadlines - {key};
        } else {
          deadlines := deadlines[key := now + Ttl(config)];
        }
      }
    }

    /** The script. If EXPIRE refuses the time to live, the error comes after the hash is
        stored. */
    method RunScript(key: Id, now: real) returns (r: Result<bool, RedisError>)
      requires deadlines.Keys <= hashes.Keys
      modifies `hashes, `deadlines
      ensures var (ok, next) := Step(config, old(Live(key, now)), now);
              if Refused() then
                && r == Err(RedisFailed) && Find(hashes, key) == next
                && Find(deadlines, key) == if old(Expired(key, now)) then None else old(Find(deadlines, key))
              else
                && r == Ok(ok)
                && Find(hashes, key) == (if Ttl(config) <= 0.0 then None else next)
                && Find(deadlines, key) == if key in hashes then Some(now + Ttl(config)) else None
      ensures Find(deadlines, key).Some? ==> Find(hashes, key).Some?
      ensures hashes - {key} == old(hashes) - {key} && deadlines - {key} == old(deadlines) - {key}
    {
      DropExpired(key, now);
      var tokens, last := config.capacity, now;
      if key in hashes {
        tokens, last := hashes[key].tokens, hashes[key].last;
      }
      var delta := Max(0.0, now - last);
      var filled := Min(config.capacity, tokens + delta * config.rate);
      if filled >= 1.0 {
        hashes := hashes[key := Bucket(filled - 1.0, now)];
      }
      if Refused() {
        return Err(RedisFailed);
      }
      Expire(key, now);
      return Ok(filled >= 1.0);
    }

    /** One request. An error of Redis before the script changes nothing; otherwise the script
        runs, and an answered call joins the history of the key. */
    method Allow(key: Id, now: real, redisOk: bool) returns (r: Result<bool, RedisError>)
      requires Valid()
      modifies this
      ensures Valid()
      ensures !redisOk ==> r == Err(RedisFailed) && hashes == old(hashes) && deadlines == old(deadlines)
      ensures redisOk ==> var (ok, next) := Step(config, old(Live(key, now)), now);
                          if Refused() then
                            && r == Err(RedisFailed) && Find(hashes, key) == next
                            && Find(deadlines, key) == if old(Expired(key, now)) then None
                                                       else old(Find(deadlines, key))
                          else
                            && r == Ok(ok)
                            && Find(hashes, key) == (if Ttl(config) <= 0.0 then None else next)
                            && Find(deadlines, key) == if key in hashes then Some(now + Ttl(config)) else None
      ensures r.Err? ==> accounts == old(accounts)
      ensures r.Ok? ==> var a, call := AccountOf(old(accounts), key), Call(now, old(Expired(key, now)));
                        accounts == old(accounts)[key := Account(a.calls + [call], a.answers + [r.value])]
      ensures hashes - {key} == old(hashes) - {key} && deadlines - {key} == old(deadlines) - {key}
    {
      if !redisOk {
        return Err(RedisFailed);
      }
      hide Kept, Step, Ttl;
      ghost var a, call := AccountOf(accounts, key), Call(now, Expired(key, now));
      assert Live(key, now) == Seen(Find(hashes, key), call);
      if config.Valid() && !Refused() {
        assert KeyKept(key);
        KeptByCall(config, a, Find(hashes, key), Find(deadlines, key), call);
        TtlPositive(config);
      }
      label before:
      r := RunScript(key, now);
      StillPaired(hashes, old@before(hashes), deadlines, old@before(deadlines), key);
      if r.Ok? {
        accounts := accounts[key := Account(a.calls + [call], a.answers + [r.value])];
      }
      if config.Valid() && !Refused() {
        forall k
          ensures KeyKept(k)
        {
          if k != key {
            assert old@before(KeyKept(k));
            FindElsewhere(hashes, old@before(hashes), key, k);
            FindElsewhere(deadlines, old@before(deadlines), key, k);
          }
        }
      }
    }

    /** Whatever requests were made, if a key's clock never went back, then between any two of
        its calls at most capacity + rate * elapsed of them were admitted. */
    lemma AdmittedSoFar(key: Id, i: nat, j: nat)
      requires Valid() && config.Valid() && key in accounts
      requires NeverBack(accounts[key].calls) && i <= j < |accounts[key].calls|
      ensures |accounts[key].answers| == |accounts[key].calls|
      ensures Admitted(accounts[key].answers[i..j + 1]) as real <=
              config.capacity + Refill(config, accounts[key].calls[i].now, accounts[key].calls[j].now)
    {
      hide Ttl, Refill, StateAfter, Decisions, Admitted;
      var calls := accounts[key].calls;
      assert KeyKept(key);
      KeptIsTimely(config, calls[0].now, calls, 0);
      assert calls[0..] == calls;
      AdmissionBound(config, calls[0].now, calls, i, j);
    }

    /** And one of its calls was denied exactly when those admitted before it had exhausted the
        bucket. */
    lemma DeniedSoFar(key: Id, j: nat)
      requires Valid() && config.Valid() && key in accounts
      requires NeverBack(accounts[key].calls) && j < |accounts[key].calls|
      ensures |accounts[key].answers| == |accounts[key].calls|
      ensures !accounts[key].answers[j] <==> Exhausted(config, accounts[key].calls, accounts[key].answers, j)
    {
      hide Ttl, StateAfter, Decisions, Exhausted;
      var calls := accounts[key].calls;
      assert KeyKept(key);
      KeptIsTimely(config, calls[0].now, calls, 0);
      assert calls[0..] == calls;
      DeniedExactly(config, calls[0].now, calls, j);
    }
  }

  lemma TtlPositive(c: Config)
    requires c.Valid()
    ensures Ttl(c) >= 1.0
  {
    Quotient(0.0, 1.0 / c.rate, c.capacity);
  }

  lemma StillPaired(hashes: map<Id, Bucket>, hashes0: map<Id, Bucket>, deadlines: map<Id, real>,
                    deadlines0: map<Id, real>, key: Id)
    requires hashes - {key} == hashes0 - {key} && deadlines - {key} == deadlines0 - {key}
    requires deadlines0.Keys <= hashes0.Keys && (Find(deadlines, key).Some? ==> Find(hashes, key).Some?)
    ensures deadlines.Keys <= hashes.Keys
  {
    forall k | k in deadlines
      ensures k in hashes
    {
      if k != key {
        FindElsewhere(deadlines, deadlines0, key, k);
        FindElsewhere(hashes, hashes0, key, k);
      }
    }
  }

  lemma FindElsewhere<V>(m: map<Id, V>, n: map<Id, V>, key: Id, k: Id)
    requires m - {key} == n - {key} && k != key
    ensures Find(m, k) == Find(n, k)
  {
    assert k in m <==> k in m - {key};
    assert k in n <==> k in n - {key};
    assert k in m ==> m[k] == (m - {key})[k];
    assert k in n ==> n[k] == (n - {key})[k];
  }
}
