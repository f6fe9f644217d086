/** utils/cron_parse.go: the fire times of a cron schedule inside a half-open window.
    Times are nanoseconds since the zero time. */
module CronParse {
  import opened Arithmetic
  import opened Common

  const SECOND: int := 1_000_000_000

  /** A parsed schedule is known only through Next. */
  datatype Schedule = Schedule(next: int -> Option<int>)

  datatype CronError = ParseFailed

  /** What every schedule of the parser does: Next, unless it gives none, moves on. */
  ghost predicate Advances(s: Schedule) {
    forall t :: s.next(t).Some? ==> t < s.next(t).value
  }

  ghost predicate StrictlyAscending(times: seq<int>) {
    forall i, j :: 0 <= i < j < |times| ==> times[i] < times[j]
  }

  /** Strictly ascending, and exactly the fire times in [start, end). */
  ghost predicate IsSchedule(times: seq<int>, fires: iset<int>, start: int, end: int) {
    StrictlyAscending(times) && forall t :: t in times <==> start <= t < end && t in fires
  }

  function TruncateToSecond(t: int): (r: int)
    ensures r <= t < r + SECOND && r % SECOND == 0
  {
    t - t % SECOND
  }

  /** Next, Next of that, ... as long as it moves on and stays before the end. */
  ghost function Orbit(s: Schedule, t: int, end: int): seq<int>
    decreases end - t
  {
    match s.next(t)
    case None => []
    case Some(u) => if t < u < end then [u] + Orbit(s, u, end) else []
  }

  ghost function From(times: seq<int>, start: int): seq<int> {
    if times == [] then [] else (if times[0] >= start then [times[0]] else []) + From(times[1..], start)
  }

  /** The times a window gives: the orbit that begins one second before it, without what
      lies before the window. */
  ghost function Fired(s: Schedule, start: int, end: int): seq<int> {
    From(Orbit(s, TruncateToSecond(start) - SECOND, end), start)
  }

  /** For every schedule of the parser. */
  method GetSchedulesBetween(parsed: Option<Schedule>, start: int, end: int) returns (r: Result<seq<int>, CronError>)
    requires parsed.Some? ==> Advances(parsed.value)
    ensures parsed.None? <==> r.Err?
    ensures r.Ok? ==> r.value == Fired(parsed.value, start, end)
  {
    if parsed.None? {
      return Err(ParseFailed);
    }
    var times := [];
    var current := TruncateToSecond(start) - SECOND;
    while true
      invariant Fired(parsed.value, start, end) == times + From(Orbit(parsed.value, current, end), start)
      decreases end - current
    {
      var next := parsed.value.next(current);
      if next.None? || next.value >= end {
        break;
      }
      if next.value >= start {
        times := times + [next.value];
      }
      current := next.value;
    }
    return Ok(times);
  }

  lemma {:induction false} OrbitAscends(s: Schedule, t: int, end: int)
    ensures StrictlyAscending(Orbit(s, t, end)) && forall u :: u in Orbit(s, t, end) ==> t < u < end
    decreases end - t
  {
    if s.next(t).Some? && t < s.next(t).value < end {
      var u := s.next(t).value;
      OrbitAscends(s, u, end);
      AscendingCons(u, Orbit(s, u, end));
    }
  }

  lemma AscendingCons(first: int, rest: seq<int>)
    requires StrictlyAscending(rest) && forall t :: t in rest ==> first < t
    ensures StrictlyAscending([first] + rest)
  {
    forall i | 0 <= i < |rest|
      ensures first < rest[i]
    {
      assert rest[i] in rest;
    }
  }

  lemma {:induction false} FromKeeps(times: seq<int>, start: int)
    requires StrictlyAscending(times)
    ensures StrictlyAscending(From(times, start))
    ensures forall t :: t in From(times, start) <==> t in times && t >= start
    decreases |times|
  {
    if times != [] {
      FromKeeps(times[1..], start);
      assert times == [times[0]] + times[1..];
      assert forall t :: t in times[1..] ==> times[0] < t;
      AscendingCons(times[0], From(times[1..], start));
      assert forall t :: t in times <==> t == times[0] || t in times[1..];
    }
  }

  /** Whatever the schedule, the times are strictly ascending and inside the window. */
  lemma FiredAscends(s: Schedule, start: int, end: int)
    ensures StrictlyAscending(Fired(s, start, end))
    ensures forall t :: t in Fired(s, start, end) ==> start <= t < end
  {
    OrbitAscends(s, TruncateToSecond(start) - SECOND, end);
    FromKeeps(Orbit(s, TruncateToSecond(start) - SECOND, end), start);
  }

  // ---- schedules that stand for a set of fire times ----

  /** Next gives the least fire time strictly after its argument, or none if there is none
      before the horizon. */
  ghost predicate Describes(s: Schedule, fires: iset<int>, horizon: int) {
    forall t :: match s.next(t)
                case Some(u) => t < u && u in fires && forall v :: t < v < u ==> v !in fires
                case None => forall v :: t < v < horizon ==> v !in fires
  }

  lemma {:induction false} OrbitIsFires(s: Schedule, fires: iset<int>, t: int, end: int)
    requires Describes(s, fires, end)
    ensures forall u :: u in Orbit(s, t, end) <==> t < u < end && u in fires
    decreases end - t
  {
    if s.next(t).Some? && s.next(t).value < end {
      OrbitIsFires(s, fires, s.next(t).value, end);
    }
  }

  /** A schedule with a set of fire times gives exactly those in [start, end). */
  lemma FiredIsSchedule(s: Schedule, fires: iset<int>, start: int, end: int)
    requires Describes(s, fires, end)
    ensures IsSchedule(Fired(s, start, end), fires, start, end)
  {
    var from := TruncateToSecond(start) - SECOND;
    OrbitAscends(s, from, end);
    OrbitIsFires(s, fires, from, end);
    FromKeeps(Orbit(s, from, end), start);
  }

  // ---- @every ----

  /** The schedule of "@every d": a whole number of seconds after its argument, on the second. */
  function Every(delay: int): Schedule {
    Schedule(t => Some(t + (delay - t % SECOND)))
  }

  lemma EveryAdvances(delay: int)
    requires delay >= SECOND
    ensures Advances(Every(delay))
  {
  }

  /** What "@every" makes of its duration: whole seconds, at least one. */
  function Rounded(duration: int): (delay: int)
    ensures delay >= SECOND && delay % SECOND == 0
    ensures duration >= SECOND ==> delay <= duration < delay + SECOND
  {
    var least := if duration < SECOND then SECOND else duration;
    least - least % SECOND
  }

  ghost function WholeSeconds(): iset<int> {
    iset t | t % SECOND == 0
  }

  lemma NextSecond(t: int)
    ensures Every(SECOND).next(t) == Some(t - t % SECOND + SECOND)
    ensures (t - t % SECOND + SECOND) % SECOND == 0
    ensures forall v :: t < v < t - t % SECOND + SECOND ==> v % SECOND != 0
  {
  }

  lemma SecondsDescribed(horizon: int)
    ensures Describes(Every(SECOND), WholeSeconds(), horizon)
  {
    forall t: int
      ensures match Every(SECOND).next(t)
              case Some(u) => t < u && u in WholeSeconds() && forall v :: t < v < u ==> v !in WholeSeconds()
              case None => false
    {
      NextSecond(t);
    }
  }

  lemma OnlySeconds(fires: iset<int>, horizon: int, t: int)
    requires Describes(Every(SECOND), fires, horizon)
    ensures t in fires <==> t % SECOND == 0
  {
    if t % SECOND == 0 {
      NextSecond(t - 1);
    } else {
      NextSecond(t - t % SECOND);
      assert t - t % SECOND < t < t - t % SECOND + SECOND;
    }
  }

  /** Below two seconds "@every" stands for the whole seconds and for no other set; from two
      seconds on it stands for none: it depends on where one asks. */
  lemma EveryDescribesExactly(duration: int, fires: iset<int>, horizon: int)
    ensures Describes(Every(Rounded(duration)), fires, horizon) <==>
            duration < 2 * SECOND && fires == WholeSeconds()
  {
    var delay := Rounded(duration);
    if duration < 2 * SECOND {
      assert delay == SECOND;
      SecondsDescribed(horizon);
      if Describes(Every(delay), fires, horizon) {
        forall t: int
          ensures t in fires <==> t in WholeSeconds()
        {
          OnlySeconds(fires, horizon, t);
        }
        assert fires == WholeSeconds();
      }
    } else {
      assert Every(delay).next(0) == Some(delay);
      assert Every(delay).next(SECOND) == Some(SECOND + delay);
    }
  }

  lemma {:induction false} EveryOrbit(delay: int, t: int, end: int, k: nat)
    requires delay >= SECOND && delay % SECOND == 0 && t % SECOND == 0
    ensures k < |Orbit(Every(delay), t, end)| <==> t + (k + 1) * delay < end
    ensures k < |Orbit(Every(delay), t, end)| ==> Orbit(Every(delay), t, end)[k] == t + (k + 1) * delay
    decreases k
  {
    assert (k + 1) * delay == delay + k * delay;
    assert Every(delay).next(t) == Some(t + delay);
    if k > 0 {
      assert (t + delay) % SECOND == 0;
      EveryOrbit(delay, t + delay, end, k - 1);
      TimesMonotone(0, k, delay);
    }
  }

  lemma {:induction false} FromAll(times: seq<int>, start: int)
    requires forall i :: 0 <= i < |times| ==> times[i] >= start
    ensures From(times, start) == times
    decreases |times|
  {
    if times != [] {
      FromAll(times[1..], start);
    }
  }

  /** In a window that starts on the second, "@every d" fires at start + d - 1s and every d
      from there: the first time is one second early. */
  lemma EveryFires(delay: int, start: int, end: int, k: nat)
    requires delay >= SECOND && delay % SECOND == 0 && start % SECOND == 0
    ensures k < |Fired(Every(delay), start, end)| <==> start - SECOND + (k + 1) * delay < end
    ensures k < |Fired(Every(delay), start, end)| ==>
              Fired(Every(delay), start, end)[k] == start - SECOND + (k + 1) * delay
  {
    var s, t := Every(delay), start - SECOND;
    assert TruncateToSecond(start) == start;
    forall i: nat | i < |Orbit(s, t, end)|
      ensures Orbit(s, t, end)[i] >= start
    {
      EveryOrbit(delay, t, end, i);
      TimesMonotone(1, i + 1, delay);
    }
    FromAll(Orbit(s, t, end), start);
    EveryOrbit(delay, t, end, k);
  }

  /** Two ascending lists of the same times are the same list, so a set of fire times
      determines the result. */
  lemma ScheduleUnique(a: seq<int>, b: seq<int>, fires: iset<int>, start: int, end: int)
    requires IsSchedule(a, fires, start, end)
    ensures IsSchedule(b, fires, start, end) <==> a == b
  {
    if IsSchedule(b, fires, start, end) {
      AscendingUnique(a, b);
    }
  }

  lemma FirstIsMember(times: seq<int>)
    ensures times != [] ==> times[0] in times
  {
  }

  lemma {:induction false} AscendingUnique(a: seq<int>, b: seq<int>)
    requires StrictlyAscending(a) && StrictlyAscending(b)
    requires forall t :: t in a <==> t in b
    ensures a == b
    decreases |a|
  {
    if a == [] || b == [] {
      FirstIsMember(a);
      FirstIsMember(b);
    } else {
      assert a[0] in b && b[0] in a;
      assert a[0] == b[0];
      assert forall t :: t in a[1..] <==> t in a && t != a[0];
      assert forall t :: t in b[1..] <==> t in b && t != b[0];
      AscendingUnique(a[1..], b[1..]);
    }
  }
}
