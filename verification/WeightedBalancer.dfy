/** utils/grpc-helloworld/resolver/weighted_balancer.go: smooth weighted round robin. */
module WeightedBalancer {
  import opened Arithmetic
  import opened Common

  const DEFAULT_WEIGHT: int := 1

  /** What the address attributes of a ready connection hold. */
  datatype Metadata = NoAttributes | NoMetadata | WrongType | AddrMetadata(weight: int)

  datatype ConnInfo = ConnInfo(address: string, metadata: Metadata)

  /** The configured weight if it is positive; otherwise, or without one, 1. */
  function EffectiveWeight(m: Metadata): (w: int)
    ensures w > 0
    ensures m.AddrMetadata? && m.weight > 0 ==> w == m.weight
    ensures !m.AddrMetadata? || m.weight <= 0 ==> w == 1
  {
    if m.AddrMetadata? && m.weight > 0 then m.weight else DEFAULT_WEIGHT
  }

  // ---- sums and first maxima ----

  ghost function Sum(s: seq<int>): int
    decreases |s|
  {
    if s == [] then 0 else Sum(s[..|s| - 1]) + s[|s| - 1]
  }

  lemma {:induction false} SumUpdate(s: seq<int>, i: nat, v: int)
    requires i < |s|
    ensures Sum(s[i := v]) == Sum(s) - s[i] + v
    decreases |s|
  {
    var n := |s| - 1;
    if i < n {
      SumUpdate(s[..n], i, v);
      assert s[i := v][..n] == s[..n][i := v];
    } else {
      assert s[i := v][..n] == s[..n];
    }
  }

  lemma {:induction false} SumAdd(a: seq<int>, b: seq<int>, c: seq<int>)
    requires |a| == |b| == |c| && forall i :: 0 <= i < |a| ==> c[i] == a[i] + b[i]
    ensures Sum(c) == Sum(a) + Sum(b)
    decreases |a|
  {
    if a != [] {
      var n := |a| - 1;
      SumAdd(a[..n], b[..n], c[..n]);
    }
  }

  lemma {:induction false} SumAtMost(s: seq<int>, top: int)
    requires forall i :: 0 <= i < |s| ==> s[i] <= top
    ensures Sum(s) <= |s| * top
    decreases |s|
  {
    if s != [] {
      SumAtMost(s[..|s| - 1], top);
    }
  }

  /** A member plus a lower bound for each of the others. */
  lemma {:induction false} SumAtLeast(s: seq<int>, low: int, i: nat)
    requires i < |s| && forall j :: 0 <= j < |s| ==> s[j] >= low
    ensures Sum(s) >= s[i] + (|s| - 1) * low
  {
    var n := |s| - 1;
    if i < n {
      SumAtLeast(s[..n], low, i);
    } else {
      SumAboveAll(s[..n], low);
    }
  }

  lemma {:induction false} SumAboveAll(s: seq<int>, low: int)
    requires forall j :: 0 <= j < |s| ==> s[j] >= low
    ensures Sum(s) >= |s| * low
    decreases |s|
  {
    if s != [] {
      SumAboveAll(s[..|s| - 1], low);
    }
  }

  /** The earliest of the largest entries. */
  ghost predicate IsFirstMax(s: seq<int>, b: nat) {
    && b < |s|
    && (forall i :: 0 <= i < |s| ==> s[i] <= s[b])
    && (forall i :: 0 <= i < b ==> s[i] < s[b])
  }

  ghost function FirstMax(s: seq<int>): (b: nat)
    requires s != []
    ensures IsFirstMax(s, b)
    decreases |s|
  {
    if |s| == 1 then 0 else
      var n := |s| - 1;
      var b := FirstMax(s[..n]);
      assert forall i :: 0 <= i < n ==> s[..n][i] == s[i];
      if s[n] > s[b] then n else b
  }

  // ---- the pick sequence ----

  ghost predicate Weights(ws: seq<int>) {
    ws != [] && forall i :: 0 <= i < |ws| ==> ws[i] > 0
  }

  ghost function Raised(ws: seq<int>, cw: seq<int>): (r: seq<int>)
    requires |cw| == |ws|
    ensures |r| == |ws|
  {
    seq(|ws|, i requires 0 <= i < |ws| => cw[i] + ws[i])
  }

  ghost function Best(ws: seq<int>, cw: seq<int>): (b: nat)
    requires |cw| == |ws| && ws != []
    ensures b < |ws|
  {
    FirstMax(Raised(ws, cw))
  }

  /** One pick: everyone gains its weight, the first largest pays the total. */
  ghost function Next(ws: seq<int>, cw: seq<int>): (r: seq<int>)
    requires |cw| == |ws| && ws != []
    ensures |r| == |ws|
  {
    var up, b := Raised(ws, cw), Best(ws, cw);
    up[b := up[b] - Sum(ws)]
  }

  /** The current weights after n picks from a fresh picker. */
  ghost function After(ws: seq<int>, n: nat): (cw: seq<int>)
    requires ws != []
    ensures |cw| == |ws|
  {
    if n == 0 then seq(|ws|, i => 0) else Next(ws, After(ws, n - 1))
  }

  /** Which connection pick number n (from 0) chooses. */
  ghost function ChosenAt(ws: seq<int>, n: nat): (b: nat)
    requires ws != []
    ensures b < |ws|
  {
    Best(ws, After(ws, n))
  }

  /** How many of the picks m, ..., n - 1 choose connection i. */
  ghost function Picks(ws: seq<int>, i: nat, m: nat, n: nat): nat
    requires ws != [] && m <= n
    decreases n
  {
    if n == m then 0 else Picks(ws, i, m, n - 1) + if ChosenAt(ws, n - 1) == i then 1 else 0
  }

  lemma {:induction false} PicksSplit(ws: seq<int>, i: nat, a: nat, b: nat, c: nat)
    requires ws != [] && a <= b <= c
    ensures Picks(ws, i, a, c) == Picks(ws, i, a, b) + Picks(ws, i, b, c)
    decreases c
  {
    if b < c {
      PicksSplit(ws, i, a, b, c - 1);
    }
  }

  /** A current weight is what its connection is owed. */
  lemma {:induction false} CurrentIsOwed(ws: seq<int>, n: nat, i: nat)
    requires Weights(ws) && i < |ws|
    ensures After(ws, n)[i] == n * ws[i] - Sum(ws) * Picks(ws, i, 0, n)
  {
    if n > 0 {
      hide Sum, Next, Best, After;
      CurrentIsOwed(ws, n - 1, i);
      AfterSucc(ws, n - 1);
      NextAt(ws, After(ws, n - 1), i);
      OneMorePick(n, ws[i], Sum(ws), Picks(ws, i, 0, n - 1));
    }
  }

  lemma NextAt(ws: seq<int>, cw: seq<int>, i: nat)
    requires |cw| == |ws| && i < |ws|
    ensures Next(ws, cw)[i] == cw[i] + ws[i] - if Best(ws, cw) == i then Sum(ws) else 0
  {
    hide Sum, Best;
  }

  lemma OneMorePick(n: int, w: int, W: int, p: int)
    ensures (n - 1) * w + w == n * w && W * (p + 1) == W * p + W
  {
  }

  lemma {:induction false} SumZeros(n: nat)
    ensures Sum(seq(n, i => 0)) == 0
  {
    if n > 0 {
      SumZeros(n - 1);
      assert seq(n, i => 0)[..n - 1] == seq(n - 1, i => 0);
    }
  }

  lemma {:induction false} NothingIsLost(ws: seq<int>, n: nat)
    requires Weights(ws)
    ensures Sum(After(ws, n)) == 0
  {
    if n == 0 {
      SumZeros(|ws|);
    } else {
      hide Next, Sum;
      NothingIsLost(ws, n - 1);
      NextKeepsSum(ws, After(ws, n - 1));
    }
  }

  lemma NextKeepsSum(ws: seq<int>, cw: seq<int>)
    requires |cw| == |ws| && ws != []
    ensures Sum(Next(ws, cw)) == Sum(cw)
  {
    hide Sum, Raised, Best, Next;
    var up, b := Raised(ws, cw), Best(ws, cw);
    RaisedAt(ws, cw);
    SumAdd(cw, ws, up);
    var paid := up[b := up[b] - Sum(ws)];
    forall i | 0 <= i < |ws|
      ensures Next(ws, cw)[i] == paid[i]
    {
      NextAt(ws, cw, i);
    }
    assert Next(ws, cw) == paid;
    SumUpdate(up, b, paid[b]);
  }

  lemma RaisedAt(ws: seq<int>, cw: seq<int>)
    requires |cw| == |ws|
    ensures forall i :: 0 <= i < |ws| ==> Raised(ws, cw)[i] == cw[i] + ws[i]
  {
  }

  lemma {:induction false} SumPositive(ws: seq<int>)
    requires forall i :: 0 <= i < |ws| ==> ws[i] > 0
    ensures Sum(ws) >= |ws|
    decreases |ws|
  {
    if ws != [] {
      SumPositive(ws[..|ws| - 1]);
    }
  }

  /** The chosen connection is owed something. */
  lemma ChosenIsOwed(ws: seq<int>, cw: seq<int>)
    requires Weights(ws) && |cw| == |ws| && Sum(cw) == 0
    ensures Raised(ws, cw)[Best(ws, cw)] > 0
  {
    var up, b := Raised(ws, cw), Best(ws, cw);
    SumAdd(cw, ws, up);
    SumPositive(ws);
    if up[b] <= 0 {
      SumAtMost(up, 0);
    }
  }

  /** No connection is ever ahead by a whole round, and none behind by more than the others
      can be ahead. */
  lemma {:induction false} CurrentIsBounded(ws: seq<int>, n: nat, i: nat)
    requires Weights(ws) && i < |ws|
    ensures -Sum(ws) < After(ws, n)[i] <= (|ws| - 1) * (Sum(ws) - 1)
    decreases n, 1
  {
    forall j | 0 <= j < |ws|
      ensures After(ws, n)[j] >= 1 - Sum(ws)
    {
      CurrentIsAbove(ws, n, j);
    }
    NothingIsLost(ws, n);
    SumAtLeast(After(ws, n), 1 - Sum(ws), i);
    assert (|ws| - 1) * (1 - Sum(ws)) == -((|ws| - 1) * (Sum(ws) - 1));
  }

  lemma {:induction false} CurrentIsAbove(ws: seq<int>, n: nat, i: nat)
    requires Weights(ws) && i < |ws|
    ensures -Sum(ws) < After(ws, n)[i]
  {
    SumPositive(ws);
    if n > 0 {
      CurrentIsAbove(ws, n - 1, i);
      NothingIsLost(ws, n - 1);
      ChosenIsOwed(ws, After(ws, n - 1));
    }
  }

  /** Connections times total weight within int64 keeps every value a pick computes there. */
  lemma NeverOverflows(ws: seq<int>, n: nat, i: nat)
    requires Weights(ws) && i < |ws| && |ws| * Sum(ws) <= MAX_INT64
    ensures MIN_INT64 < After(ws, n)[i] < Raised(ws, After(ws, n))[i] <= MAX_INT64
  {
    hide After, Sum;
    CurrentIsBounded(ws, n, i);
    SumPositive(ws);
    SumAtLeast(ws, 0, i);
    BoundFits(|ws|, Sum(ws));
  }

  lemma BoundFits(n: int, W: int)
    requires n >= 1 && W >= 1
    ensures (n - 1) * (W - 1) + W <= n * W && W <= n * W
  {
    assert (n - 1) * (W - 1) == n * W - n - W + 1;
  }

  /** At every prefix: picks stay below the fair share plus one. */
  lemma NeverAhead(ws: seq<int>, n: nat, i: nat)
    requires Weights(ws) && i < |ws|
    ensures Sum(ws) * Picks(ws, i, 0, n) < n * ws[i] + Sum(ws)
  {
    CurrentIsOwed(ws, n, i);
    CurrentIsAbove(ws, n, i);
  }

  lemma {:induction false} NonNegativeSumZero(s: seq<int>, i: nat)
    requires i < |s| && Sum(s) == 0 && forall j :: 0 <= j < |s| ==> s[j] >= 0
    ensures s[i] == 0
  {
    SumAtLeast(s, 0, i);
  }

  /** How many picks a round takes: the total weight. */
  ghost function Round(ws: seq<int>): (r: nat)
    requires Weights(ws)
    ensures r == Sum(ws) && r >= |ws| > 0
  {
    SumPositive(ws);
    Sum(ws)
  }

  /** After k whole rounds everyone was chosen exactly k times its weight and all current
      weights are zero again. */
  lemma {:induction false} RoundsAreExact(ws: seq<int>, k: nat, n: nat, i: nat)
    requires Weights(ws) && i < |ws| && n == k * Sum(ws)
    ensures After(ws, n)[i] == 0
    ensures Picks(ws, i, 0, n) == k * ws[i]
  {
    hide After, Picks;
    var W := Round(ws);
    forall j | 0 <= j < |ws|
      ensures After(ws, n)[j] >= 0
    {
      CurrentIsOwed(ws, n, j);
      CurrentIsAbove(ws, n, j);
      MultipleAbove(W, k * ws[j] - Picks(ws, j, 0, n), After(ws, n)[j], n, ws[j], k, Picks(ws, j, 0, n));
    }
    NothingIsLost(ws, n);
    NonNegativeSumZero(After(ws, n), i);
    CurrentIsOwed(ws, n, i);
    EqualMultiples(W, k, ws[i], Picks(ws, i, 0, n));
  }

  lemma MultipleAbove(W: int, d: int, c: int, n: int, w: int, k: int, p: int)
    requires W > 0 && n == k * W && d == k * w - p && c == n * w - W * p && c > -W
    ensures c >= 0
  {
    assert c == W * d by {
      assert n * w == W * (k * w);
    }
    if d < 0 {
      NegativeMultiple(W, d);
    }
  }

  lemma NegativeMultiple(W: int, d: int)
    requires W > 0 && d < 0
    ensures W * d <= -W
  {
    TimesMonotone(d, -1, W);
  }

  lemma EqualMultiples(W: int, k: int, w: int, p: int)
    requires W > 0 && k * W * w - W * p == 0
    ensures p == k * w
  {
    assert W * (k * w - p) == 0;
  }

  /** Inside a round, which starts after k whole ones, no connection exceeds its weight, and by the end
      of it each was chosen exactly its weight: none is starved. */
  lemma {:induction false} RoundIsFair(ws: seq<int>, k: nat, a: nat, b: nat, i: nat)
    requires Weights(ws) && i < |ws| && a == k * Sum(ws) && a <= b <= a + Sum(ws)
    ensures Picks(ws, i, a, b) <= ws[i]
    ensures b == a + Sum(ws) ==> Picks(ws, i, a, b) == ws[i]
  {
    hide Picks, After, Sum;
    var end := a + Sum(ws);
    assert end == (k + 1) * Sum(ws);
    RoundsAreExact(ws, k, a, i);
    RoundsAreExact(ws, k + 1, end, i);
    PicksSplit(ws, i, 0, a, end);
    PicksSplit(ws, i, a, b, end);
    assert (k + 1) * ws[i] == k * ws[i] + ws[i];
  }

  /** The pick sequence repeats every W picks. */
  lemma {:induction false} PicksRepeat(ws: seq<int>, n: nat)
    requires Weights(ws)
    ensures After(ws, n + Round(ws)) == After(ws, n) && ChosenAt(ws, n + Round(ws)) == ChosenAt(ws, n)
  {
    hide After, Next, Best, Round;
    if n == 0 {
      RoundEndsAtZero(ws);
    } else {
      PicksRepeat(ws, n - 1);
      AfterSucc(ws, n - 1);
      AfterSucc(ws, n - 1 + Round(ws));
      assert n + Round(ws) == n - 1 + Round(ws) + 1;
    }
  }

  lemma RoundEndsAtZero(ws: seq<int>)
    requires Weights(ws)
    ensures After(ws, Round(ws)) == After(ws, 0)
  {
    hide Next, Round, Picks;
    var cw := After(ws, Round(ws));
    forall i | 0 <= i < |ws|
      ensures cw[i] == 0
    {
      RoundsAreExact(ws, 1, Round(ws), i);
    }
    assert After(ws, 0) == seq(|ws|, i => 0);
  }

  lemma AfterSucc(ws: seq<int>, n: nat)
    requires ws != []
    ensures After(ws, n + 1) == Next(ws, After(ws, n))
  {
  }

  /** The pick in terms of what was promised and what was given: the earliest of those to
      which most picks are owed. */
  lemma ChosenIsMostOwed(ws: seq<int>, n: nat, i: nat)
    requires Weights(ws) && i < |ws|
    ensures var b := ChosenAt(ws, n);
            var owed, most := (n + 1) * ws[i] - Sum(ws) * Picks(ws, i, 0, n),
                              (n + 1) * ws[b] - Sum(ws) * Picks(ws, b, 0, n);
            owed <= most && (i < b ==> owed < most)
  {
    hide After, Sum, Picks, Raised, FirstMax;
    var b, up := ChosenAt(ws, n), Raised(ws, After(ws, n));
    CurrentIsOwed(ws, n, i);
    CurrentIsOwed(ws, n, b);
    OneMorePick(n + 1, ws[i], 0, 0);
    OneMorePick(n + 1, ws[b], 0, 0);
    RaisedAt(ws, After(ws, n));
    assert IsFirstMax(up, b) && up[i] <= up[b];
  }

  // ---- the picker and its builder ----

  type SubConn = Id

  class WeightedSubConn {
    const sc: SubConn
    const address: string
    const weight: int
    var currentWeight: int

    constructor (sc: SubConn, address: string, weight: int)
      ensures this.sc == sc && this.address == address && this.weight == weight && currentWeight == 0
    {
      this.sc, this.address, this.weight, currentWeight := sc, address, weight, 0;
    }
  }

  ghost function WeightList(subConns: seq<WeightedSubConn>): seq<int> {
    seq(|subConns|, i requires 0 <= i < |subConns| => subConns[i].weight)
  }

  class WrrPicker {
    const subConns: seq<WeightedSubConn>
    const totalWeight: int
    /** How many picks were made: the whole state follows from it. */
    ghost var picked: nat

    /** What never changes: distinct objects, positive weights, their total. */
    ghost predicate WellBuilt() {
      && (forall i, j :: 0 <= i < j < |subConns| ==> subConns[i] != subConns[j])
      && (forall i :: 0 <= i < |subConns| ==> subConns[i].weight > 0)
      && totalWeight == Sum(WeightList(subConns))
    }

    ghost predicate Shows(cw: seq<int>)
      reads subConns
    {
      |cw| == |subConns| && forall i :: 0 <= i < |subConns| ==> subConns[i].currentWeight == cw[i]
    }

    ghost predicate Valid()
      reads this, subConns
    {
      WellBuilt() && (subConns != [] ==> Shows(After(WeightList(subConns), picked)))
    }

    constructor (subConns: seq<WeightedSubConn>, totalWeight: int)
      requires forall i, j :: 0 <= i < j < |subConns| ==> subConns[i] != subConns[j]
      requires forall i :: 0 <= i < |subConns| ==> subConns[i].weight > 0 && subConns[i].currentWeight == 0
      requires totalWeight == Sum(WeightList(subConns))
      ensures Valid() && picked == 0 && this.subConns == subConns
    {
      this.subConns, this.totalWeight, picked := subConns, totalWeight, 0;
    }

    method Pick() returns (r: Option<SubConn>)
      requires Valid()
      modifies `picked, subConns
      ensures Valid()
      ensures subConns == [] ==> r == None && picked == old(picked)
      ensures subConns != [] ==> && picked == old(picked) + 1
                                 && r == Some(subConns[ChosenAt(WeightList(subConns), old(picked))].sc)
    {
      hide After, Sum, FirstMax, IsFirstMax, Raised, Shows;
      if |subConns| == 0 {
        return None;
      }
      ghost var ws := WeightList(subConns);
      ghost var cw := After(ws, picked);
      var best;
      ghost var b;
      best, b := RaiseAll(cw);
      SomeoneIsOwed(ws, picked);
      if best == null {
        assert false;
      }
      FirstMaxUnique(Raised(ws, cw), b);
      Pay(best, b, Raised(ws, cw));
      AfterNext(ws, picked);
      picked := picked + 1;
      return Some(best.sc);
    }

    /** The loop of Pick: everyone gains its weight; the first largest is remembered. */
    method RaiseAll(ghost cw: seq<int>) returns (best: WeightedSubConn?, ghost b: nat)
      requires WellBuilt() && Shows(cw) && subConns != []
      modifies subConns
      ensures Shows(Raised(WeightList(subConns), cw))
      ensures best == null ==> !Exceeds(Raised(WeightList(subConns), cw), MIN_INT64)
      ensures best != null ==> b < |subConns| && best == subConns[b] && IsFirstMax(Raised(WeightList(subConns), cw), b)
    {
      hide Sum, Raised, BestSoFar, Exceeds, IsFirstMax;
      ghost var up := Raised(WeightList(subConns), cw);
      RaisedAt(WeightList(subConns), cw);
      b, best := 0, null;
      var max := MIN_INT64;
      NoneSoFar(up);
      for i := 0 to |subConns|
        invariant forall j :: 0 <= j < |subConns| ==> subConns[j].currentWeight == if j < i then up[j] else cw[j]
        invariant BestSoFar(up, i, best != null, b, max)
        invariant best != null ==> b < |subConns| && best == subConns[b]
      {
        var wsc := subConns[i];
        wsc.currentWeight := wsc.currentWeight + wsc.weight;
        BestGoesOn(up, i, best != null, b, max);
        if wsc.currentWeight > max {
          max, best, b := wsc.currentWeight, wsc, i;
        }
      }
      BestOfAll(up, best != null, b, max);
    }

    /** The chosen connection pays the total. */
    method Pay(best: WeightedSubConn, ghost b: nat, ghost up: seq<int>)
      requires WellBuilt() && Shows(up) && b < |subConns| && best == subConns[b]
      modifies best
      ensures Shows(up[b := up[b] - Sum(WeightList(subConns))])
    {
      best.currentWeight := best.currentWeight - totalWeight;
    }
  }

  /** The scan over the first i entries, starting below everything. */
  ghost predicate BestSoFar(up: seq<int>, i: nat, found: bool, b: nat, max: int) {
    && i <= |up|
    && (!found ==> max == MIN_INT64 && forall j :: 0 <= j < i ==> up[j] <= MIN_INT64)
    && (found ==> b < i && max == up[b] && IsFirstMax(up[..i], b))
  }

  lemma NoneSoFar(up: seq<int>)
    ensures BestSoFar(up, 0, false, 0, MIN_INT64)
  {
  }

  lemma BestGoesOn(up: seq<int>, i: nat, found: bool, b: nat, max: int)
    requires BestSoFar(up, i, found, b, max) && i < |up|
    ensures if up[i] > max then BestSoFar(up, i + 1, true, i, up[i]) else BestSoFar(up, i + 1, found, b, max)
  {
    assert forall j :: 0 <= j < i ==> up[..i + 1][j] == up[j] == up[..i][j];
  }

  lemma BestOfAll(up: seq<int>, found: bool, b: nat, max: int)
    requires BestSoFar(up, |up|, found, b, max)
    ensures if found then IsFirstMax(up, b) else !Exceeds(up, MIN_INT64)
  {
    assert up[..|up|] == up;
  }

  ghost predicate Exceeds(s: seq<int>, low: int) {
    exists i :: 0 <= i < |s| && s[i] > low
  }

  lemma AfterNext(ws: seq<int>, n: nat)
    requires ws != []
    ensures var up := Raised(ws, After(ws, n));
            After(ws, n + 1) == up[ChosenAt(ws, n) := up[ChosenAt(ws, n)] - Sum(ws)]
  {
  }

  lemma SomeoneIsOwed(ws: seq<int>, n: nat)
    requires Weights(ws)
    ensures Exceeds(Raised(ws, After(ws, n)), MIN_INT64)
  {
    NothingIsLost(ws, n);
    ChosenIsOwed(ws, After(ws, n));
  }

  lemma FirstMaxUnique(s: seq<int>, b: nat)
    requires s != [] && IsFirstMax(s, b)
    ensures FirstMax(s) == b
  {
  }

  /** Every ready connection once, with its effective weight. */
  ghost predicate Covers(subConns: seq<WeightedSubConn>, ready: map<SubConn, ConnInfo>, done: set<SubConn>) {
    && (forall i, j :: 0 <= i < j < |subConns| ==> subConns[i].sc != subConns[j].sc)
    && (forall i :: 0 <= i < |subConns| ==>
                      && subConns[i].sc in done && subConns[i].sc in ready
                      && subConns[i].address == ready[subConns[i].sc].address
                      && subConns[i].weight == EffectiveWeight(ready[subConns[i].sc].metadata))
    && (forall sc :: sc in done ==> exists i :: 0 <= i < |subConns| && subConns[i].sc == sc)
  }

  /** Build: no ready connection gives the error picker (None); otherwise the connections come
      in any order, as Go's map iteration hands them out. */
  method Build(ready: map<SubConn, ConnInfo>) returns (picker: Option<WrrPicker>)
    ensures picker.None? <==> ready == map[]
    ensures picker.Some? ==>
              var p := picker.value;
              && fresh(p) && fresh(p.subConns) && p.Valid() && p.picked == 0
              && Covers(p.subConns, ready, ready.Keys) && Weights(WeightList(p.subConns))
              && (forall i :: 0 <= i < |p.subConns| ==>
                                && p.subConns[i].sc in ready
                                && p.subConns[i].weight == match ready[p.subConns[i].sc].metadata
                                                           case AddrMetadata(w) => if w > 0 then w else 1
                                                           case _ => 1)
  {
    hide Covers, Sum, WrrPicker.Valid, Weights;
    if |ready| == 0 {
      return None;
    }
    NothingCovered(ready);
    var subConns: seq<WeightedSubConn> := [];
    var totalWeight := 0;
    var pending := ready.Keys;
    assert ready.Keys - pending == {};
    while pending != {}
      invariant pending <= ready.Keys
      invariant fresh(subConns) && Covers(subConns, ready, ready.Keys - pending)
      invariant forall i :: 0 <= i < |subConns| ==> subConns[i].currentWeight == 0
      invariant totalWeight == Sum(WeightList(subConns))
    {
      var sc :| sc in pending;
      var info := ready[sc];
      var weight := EffectiveWeight(info.metadata);
      var wsc := new WeightedSubConn(sc, info.address, weight);
      CoversMore(subConns, ready, ready.Keys - pending, wsc);
      assert ready.Keys - (pending - {sc}) == (ready.Keys - pending) + {sc};
      subConns := subConns + [wsc];
      totalWeight := totalWeight + weight;
      pending := pending - {sc};
    }
    assert ready.Keys - {} == ready.Keys;
    CoversAll(subConns, ready);
    var p := new WrrPicker(subConns, totalWeight);
    return Some(p);
  }

  lemma NothingCovered(ready: map<SubConn, ConnInfo>)
    ensures Covers([], ready, {}) && Sum(WeightList([])) == 0
  {
  }

  lemma CoversMore(subConns: seq<WeightedSubConn>, ready: map<SubConn, ConnInfo>, done: set<SubConn>,
                   wsc: WeightedSubConn)
    requires Covers(subConns, ready, done) && wsc.sc in ready && wsc.sc !in done
    requires wsc.address == ready[wsc.sc].address && wsc.weight == EffectiveWeight(ready[wsc.sc].metadata)
    ensures Covers(subConns + [wsc], ready, done + {wsc.sc})
    ensures Sum(WeightList(subConns + [wsc])) == Sum(WeightList(subConns)) + wsc.weight
  {
    var more := subConns + [wsc];
    assert WeightList(more)[..|subConns|] == WeightList(subConns);
    forall sc | sc in done + {wsc.sc}
      ensures exists i :: 0 <= i < |more| && more[i].sc == sc
    {
      if sc in done {
        var i :| 0 <= i < |subConns| && subConns[i].sc == sc;
        assert more[i].sc == sc;
      } else {
        assert more[|subConns|].sc == sc;
      }
    }
  }

  lemma CoversAll(subConns: seq<WeightedSubConn>, ready: map<SubConn, ConnInfo>)
    requires Covers(subConns, ready, ready.Keys) && ready != map[]
    ensures forall i, j :: 0 <= i < j < |subConns| ==> subConns[i] != subConns[j]
    ensures forall i :: 0 <= i < |subConns| ==> subConns[i].weight > 0
    ensures Weights(WeightList(subConns))
    ensures forall i :: 0 <= i < |subConns| ==>
                          && subConns[i].sc in ready
                          && subConns[i].weight == match ready[subConns[i].sc].metadata
                                                   case AddrMetadata(w) => if w > 0 then w else 1
                                                   case _ => 1
  {
    assert ready.Keys != {};
    var sc :| sc in ready.Keys;
  }

  // ---- from the metadata to the picks ----

  ghost function ScList(subConns: seq<WeightedSubConn>): seq<SubConn> {
    seq(|subConns|, i requires 0 <= i < |subConns| => subConns[i].sc)
  }

  /** The picks of a fresh picker, by connection. */
  ghost predicate ArePicks(ws: seq<int>, scs: seq<SubConn>, picks: seq<SubConn>) {
    && ws != [] && |scs| == |ws|
    && forall n :: 0 <= n < |picks| ==> picks[n] == scs[ChosenAt(ws, n)]
  }

  lemma {:induction false} CountIsPicks(ws: seq<int>, scs: seq<SubConn>, picks: seq<SubConn>, i: nat)
    requires ArePicks(ws, scs, picks) && i < |scs|
    requires forall j, k :: 0 <= j < k < |scs| ==> scs[j] != scs[k]
    ensures multiset(picks)[scs[i]] == Picks(ws, i, 0, |picks|)
    decreases |picks|
  {
    hide ChosenAt, Picks, After, Sum, Best;
    if picks != [] {
      var n := |picks| - 1;
      var less, b := picks[..n], ChosenAt(ws, n);
      CountIsPicks(ws, scs, less, i);
      PicksNext(ws, i, n);
      assert picks == less + [scs[b]];
      assert multiset(picks)[scs[i]] == multiset(less)[scs[i]] + if b == i then 1 else 0;
    } else {
      NoPicks(ws, i);
    }
  }

  lemma NoPicks(ws: seq<int>, i: nat)
    requires ws != []
    ensures Picks(ws, i, 0, 0) == 0
  {
  }

  lemma PicksNext(ws: seq<int>, i: nat, n: nat)
    requires ws != []
    ensures Picks(ws, i, 0, n + 1) == Picks(ws, i, 0, n) + if ChosenAt(ws, n) == i then 1 else 0
  {
  }

  /** Building a picker and picking whole rounds: every ready connection is picked as often as
      its weight says, in every round. */
  method BuildAndPick(ready: map<SubConn, ConnInfo>, rounds: nat) returns (picks: seq<SubConn>)
    ensures ready == map[] ==> picks == []
    ensures forall sc :: sc in ready ==>
                           multiset(picks)[sc] == rounds * match ready[sc].metadata
                                                           case AddrMetadata(w) => if w > 0 then w else 1
                                                           case _ => 1
  {
    hide Covers, Sum, WrrPicker.Valid, Weights, ChosenAt;
    picks := [];
    var built := Build(ready);
    if built.None? {
      return;
    }
    var p := built.value;
    ghost var ws, scs := WeightList(p.subConns), ScList(p.subConns);
    RoundOf(p);
    for n := 0 to rounds * p.totalWeight
      invariant fresh(p) && fresh(p.subConns) && p.Valid() && p.picked == n == |picks| && ArePicks(ws, scs, picks)
    {
      var sc := p.Pick();
      picks := picks + [sc.value];
    }
    forall sc | sc in ready
      ensures multiset(picks)[sc] == rounds * match ready[sc].metadata
                                              case AddrMetadata(w) => if w > 0 then w else 1
                                              case _ => 1
    {
      var i := PlaceOf(p.subConns, ready, sc);
      CountIsPicks(ws, scs, picks, i);
      RoundsAreExact(ws, rounds, |picks|, i);
    }
  }

  lemma RoundOf(p: WrrPicker)
    requires p.Valid() && Weights(WeightList(p.subConns))
    ensures p.totalWeight == Sum(WeightList(p.subConns)) > 0 && p.subConns != []
    ensures ArePicks(WeightList(p.subConns), ScList(p.subConns), [])
  {
    SumPositive(WeightList(p.subConns));
  }

  lemma PlaceOf(subConns: seq<WeightedSubConn>, ready: map<SubConn, ConnInfo>, sc: SubConn) returns (i: nat)
    requires Covers(subConns, ready, ready.Keys) && sc in ready
    ensures i < |subConns| && subConns[i].sc == sc
    ensures forall j, k :: 0 <= j < k < |subConns| ==> ScList(subConns)[j] != ScList(subConns)[k]
  {
    i :| 0 <= i < |subConns| && subConns[i].sc == sc;
  }
}
