/** service/migrate/sql_builder.go: splitPKRanges, in 64-bit arithmetic that wraps around. */
module RangeSplit {
  import opened Arithmetic

  ghost predicate IsInt64(x: int) {
    MIN_INT64 <= x <= MAX_INT64
  }

  function Wrap(x: int): (w: int)
    ensures IsInt64(w) && (IsInt64(x) ==> w == x)
  {
    (x - MIN_INT64) % TWO_TO_THE_64 + MIN_INT64
  }

  /** Go's integer division truncates toward zero. */
  function Quotient(a: int, b: int): int
    requires b > 0
  {
    if a >= 0 then a / b else -(-a / b)
  }

  /** A closed interval of keys. */
  datatype PkRange = PkRange(lo: int, hi: int)

  function Span(minV: int, maxV: int): int {
    maxV - minV + 1
  }

  /** n pieces from minV: the first n - 1 hold `step` keys each, the last the rest. */
  ghost function Pieces(minV: int, maxV: int, n: nat, step: int): seq<PkRange> {
    seq(n, i => PkRange(minV + i * step, if i == n - 1 then maxV else minV + (i + 1) * step - 1))
  }

  /** There are more channels than keys and the keys end at the largest int64: the loop steps
      over the end. */
  ghost predicate Overruns(minV: int, maxV: int, channels: int) {
    channels > 1 && maxV == MAX_INT64 && 1 < Span(minV, maxV) < channels
  }

  /** A span that does not fit int64 gives pieces of one key. */
  ghost function StepOf(minV: int, maxV: int, channels: int): (step: int)
    requires channels > 1 && minV <= maxV
    ensures step >= 1
  {
    if Span(minV, maxV) > MAX_INT64 || Span(minV, maxV) < channels then 1 else Span(minV, maxV) / channels
  }

  /** What the loop produces: after an overrun, the whole int64 range once more. */
  ghost function Split(minV: int, maxV: int, channels: int): seq<PkRange> {
    if channels <= 1 then [PkRange(minV, maxV)]
    else if minV > maxV then []
    else if Overruns(minV, maxV, channels) then
      Pieces(minV, maxV, Span(minV, maxV), 1) + Pieces(MIN_INT64, MAX_INT64, channels - Span(minV, maxV), 1)
    else
      var span := Span(minV, maxV);
      Pieces(minV, maxV, if channels < span then channels else span, StepOf(minV, maxV, channels))
  }

  // ---- partitions ----

  /** Non-empty, contiguous intervals from minV to maxV. */
  ghost predicate IsPartition(rs: seq<PkRange>, minV: int, maxV: int) {
    && rs != [] && rs[0].lo == minV && rs[|rs| - 1].hi == maxV
    && (forall i :: 0 <= i < |rs| ==> rs[i].lo <= rs[i].hi)
    && (forall i :: 0 <= i < |rs| - 1 ==> rs[i + 1].lo == rs[i].hi + 1)
  }

  lemma {:induction false} Ascending(rs: seq<PkRange>, minV: int, maxV: int, i: nat, j: nat)
    requires IsPartition(rs, minV, maxV) && i < j < |rs|
    ensures rs[i].hi < rs[j].lo
    decreases j
  {
    assert rs[j - 1 + 1].lo == rs[j - 1].hi + 1;
    if i < j - 1 {
      Ascending(rs, minV, maxV, i, j - 1);
    }
  }

  ghost predicate Holds(rs: seq<PkRange>, i: int, k: int) {
    0 <= i < |rs| && rs[i].lo <= k <= rs[i].hi
  }

  lemma {:induction false} Found(rs: seq<PkRange>, minV: int, maxV: int, k: int, n: nat) returns (i: nat)
    requires IsPartition(rs, minV, maxV) && n < |rs| && minV <= k <= rs[n].hi
    ensures Holds(rs, i, k)
    decreases n
  {
    if rs[n].lo <= k {
      i := n;
    } else {
      assert rs[n - 1 + 1].lo == rs[n - 1].hi + 1;
      i := Found(rs, minV, maxV, k, n - 1);
    }
  }

  /** Every key of the interval lies in exactly one range, every other key in none. */
  lemma PartitionCovers(rs: seq<PkRange>, minV: int, maxV: int, k: int)
    requires IsPartition(rs, minV, maxV)
    ensures minV <= k <= maxV <==> exists i :: Holds(rs, i, k)
    ensures forall i, j :: Holds(rs, i, k) && Holds(rs, j, k) ==> i == j
  {
    var n := |rs| - 1;
    if minV <= k <= maxV {
      var i := Found(rs, minV, maxV, k, n);
    }
    forall i | Holds(rs, i, k)
      ensures minV <= k <= maxV
    {
      if i > 0 {
        Ascending(rs, minV, maxV, 0, i);
      }
      if i < n {
        Ascending(rs, minV, maxV, i, n);
      }
    }
    forall i, j | Holds(rs, i, k) && Holds(rs, j, k)
      ensures i == j
    {
      if i < j {
        Ascending(rs, minV, maxV, i, j);
      } else if j < i {
        Ascending(rs, minV, maxV, j, i);
      }
    }
  }

  lemma PiecesPartition(minV: int, maxV: int, n: nat, step: int)
    requires n >= 1 && step >= 1 && minV + (n - 1) * step <= maxV
    ensures IsPartition(Pieces(minV, maxV, n, step), minV, maxV)
  {
    var rs := Pieces(minV, maxV, n, step);
    forall i | 0 <= i < n
      ensures rs[i].lo <= rs[i].hi
    {
      assert (i + 1) * step == i * step + step;
    }
  }

  lemma StepFits(minV: int, maxV: int, channels: int)
    requires channels > 1 && minV <= maxV && channels <= MAX_INT64
    ensures var n := if channels < Span(minV, maxV) then channels else Span(minV, maxV);
            minV + (n - 1) * StepOf(minV, maxV, channels) <= maxV
  {
    var span := Span(minV, maxV);
    if channels <= span <= MAX_INT64 {
      var step := span / channels;
      assert channels * step <= span;
      assert (channels - 1) * step == channels * step - step;
    }
  }

  /** The pieces partition [minV, maxV] exactly when the loop does not overrun, and then
      there are min(channels, span) of them. */
  lemma SplitPartitionsExactly(minV: int, maxV: int, channels: int)
    requires IsInt64(minV) && IsInt64(maxV) && 1 < channels <= MAX_INT64 && minV <= maxV
    ensures IsPartition(Split(minV, maxV, channels), minV, maxV) <==> !Overruns(minV, maxV, channels)
    ensures !Overruns(minV, maxV, channels) ==>
              |Split(minV, maxV, channels)| == if channels < Span(minV, maxV) then channels else Span(minV, maxV)
  {
    var span, rs := Span(minV, maxV), Split(minV, maxV, channels);
    if Overruns(minV, maxV, channels) {
      assert rs[span].lo == MIN_INT64 < minV;
      PiecesPartition(minV, maxV, span, 1);
      assert rs[span - 1] == Pieces(minV, maxV, span, 1)[span - 1];
      assert rs[span - 1 + 1].lo != rs[span - 1].hi + 1;
    } else {
      StepFits(minV, maxV, channels);
      PiecesPartition(minV, maxV, if channels < span then channels else span, StepOf(minV, maxV, channels));
    }
  }

  /** All ranges but the last hold the same number of keys: the keys shared out evenly, or one
      if there are fewer keys than channels, or more than int64 counts. */
  lemma SplitIsEven(minV: int, maxV: int, channels: int, i: nat)
    requires IsInt64(minV) && IsInt64(maxV) && 1 < channels <= MAX_INT64 && minV <= maxV
    requires i + 1 < |Split(minV, maxV, channels)|
    ensures var r, keys := Split(minV, maxV, channels)[i], maxV - minV + 1;
            r.hi - r.lo + 1 == if channels <= keys <= MAX_INT64 then keys / channels else 1
  {
    var span, step := Span(minV, maxV), StepOf(minV, maxV, channels);
    if Overruns(minV, maxV, channels) {
      assert i < span ==> Split(minV, maxV, channels)[i] == Pieces(minV, maxV, span, 1)[i];
    } else {
      assert (i + 1) * step == i * step + step;
    }
  }

  /** After an overrun every key is covered twice. */
  lemma OverrunCoversTwice(minV: int, maxV: int, channels: int, k: int)
    requires IsInt64(minV) && IsInt64(channels) && Overruns(minV, maxV, channels) && minV <= k <= maxV
    ensures exists i, j :: i < j && Holds(Split(minV, maxV, channels), i, k) && Holds(Split(minV, maxV, channels), j, k)
  {
    var span, rs := Span(minV, maxV), Split(minV, maxV, channels);
    var first, again := Pieces(minV, maxV, span, 1), Pieces(MIN_INT64, MAX_INT64, channels - span, 1);
    PiecesPartition(minV, maxV, span, 1);
    PiecesPartition(MIN_INT64, MAX_INT64, channels - span, 1);
    var i := Found(first, minV, maxV, k, span - 1);
    var j := Found(again, MIN_INT64, MAX_INT64, k, channels - span - 1);
    assert Holds(rs, i, k) && rs[span + j] == again[j] && Holds(rs, span + j, k);
  }

  /** Two keys at the very end and three channels: the third gets the whole key space. */
  lemma OverrunExample()
    ensures Split(MAX_INT64 - 1, MAX_INT64, 3) ==
            [PkRange(MAX_INT64 - 1, MAX_INT64 - 1), PkRange(MAX_INT64, MAX_INT64), PkRange(MIN_INT64, MAX_INT64)]
  {
  }

  // ---- the loop ----

  method SplitPKRanges(minV: int, maxV: int, channels: int) returns (ranges: seq<PkRange>)
    requires IsInt64(minV) && IsInt64(maxV) && IsInt64(channels)
    ensures ranges == Split(minV, maxV, channels)
  {
    if channels <= 1 {
      return [PkRange(minV, maxV)];
    }
    if minV > maxV {
      return [];
    }
    if minV == maxV {
      return [PkRange(minV, maxV)];
    }
    var span := Wrap(maxV - minV + 1);
    var step := Quotient(span, channels);
    if step < 1 {
      step := 1;
    }
    StepIs(minV, maxV, channels, step);
    ranges := CutRanges(minV, maxV, channels, step);
  }

  method CutRanges(minV: int, maxV: int, channels: int, step: int) returns (ranges: seq<PkRange>)
    requires IsInt64(minV) && IsInt64(maxV) && 1 < channels <= MAX_INT64 && minV < maxV
    requires step == StepOf(minV, maxV, channels)
    ensures ranges == Split(minV, maxV, channels)
  {
    SplitStarts(minV, maxV, channels);
    hide *;
    ranges := [];
    var lo := minV;
    ghost var out := Split(minV, maxV, channels);
    for i := 0 to channels
      invariant i <= |out| <= channels && (i == |out| ==> i == channels) && (i < |out| ==> lo == out[i].lo)
      invariant ranges == out[..i]
    {
      RoundIs(minV, maxV, channels, step, i);
      RoundMeans(out, maxV, step, channels, i);
      var hi := Wrap(lo + step - 1);
      if i == channels - 1 {
        hi := maxV;
      }
      if hi > maxV {
        hi := maxV;
      }
      ranges := ranges + [PkRange(lo, hi)];
      lo := Wrap(hi + 1);
      if lo > maxV {
        break;
      }
    }
  }

  lemma RoundMeans(out: seq<PkRange>, maxV: int, step: int, channels: int, i: nat)
    requires RoundOk(out, maxV, step, channels, i)
    ensures i < |out| <= channels
    ensures out[i] == PkRange(out[i].lo, if i == channels - 1 || Wrap(out[i].lo + step - 1) > maxV then maxV
                                         else Wrap(out[i].lo + step - 1))
    ensures i + 1 < |out| ==> Wrap(out[i].hi + 1) == out[i + 1].lo <= maxV
    ensures i + 1 == |out| < channels ==> Wrap(out[i].hi + 1) > maxV
  {
  }

  lemma SplitStarts(minV: int, maxV: int, channels: int)
    requires IsInt64(minV) && IsInt64(maxV) && 1 < channels <= MAX_INT64 && minV < maxV
    ensures 0 < |Split(minV, maxV, channels)| <= channels && Split(minV, maxV, channels)[0].lo == minV
  {
  }

  /** The upper end the loop computes. */
  ghost function Upper(lo: int, maxV: int, step: int, last: bool): int {
    if last || Wrap(lo + step - 1) > maxV then maxV else Wrap(lo + step - 1)
  }

  /** One round of the loop makes the next piece, and stops exactly after the last one. */
  ghost predicate RoundOk(out: seq<PkRange>, maxV: int, step: int, channels: int, i: nat) {
    && i < |out| <= channels
    && out[i].hi == Upper(out[i].lo, maxV, step, i == channels - 1)
    && (i + 1 < |out| ==> Wrap(out[i].hi + 1) == out[i + 1].lo <= maxV)
    && (i + 1 == |out| < channels ==> Wrap(out[i].hi + 1) > maxV)
  }

  lemma StepIs(minV: int, maxV: int, channels: int, step: int)
    requires IsInt64(minV) && IsInt64(maxV) && 1 < channels <= MAX_INT64 && minV < maxV
    requires var q := Quotient(Wrap(maxV - minV + 1), channels); step == if q < 1 then 1 else q
    ensures step == StepOf(minV, maxV, channels)
  {
  }

  lemma RoundIs(minV: int, maxV: int, channels: int, step: int, i: nat)
    requires IsInt64(minV) && IsInt64(maxV) && 1 < channels <= MAX_INT64 && minV < maxV
    requires step == StepOf(minV, maxV, channels) && i < |Split(minV, maxV, channels)|
    ensures RoundOk(Split(minV, maxV, channels), maxV, step, channels, i)
  {
    if Overruns(minV, maxV, channels) {
      OverrunRound(minV, maxV, channels, i);
    } else {
      NormalRound(minV, maxV, channels, i);
    }
  }

  lemma OverrunRound(minV: int, maxV: int, channels: int, i: nat)
    requires IsInt64(minV) && channels <= MAX_INT64 && Overruns(minV, maxV, channels) && i < channels
    ensures RoundOk(Split(minV, maxV, channels), maxV, 1, channels, i)
  {
  }

  lemma NormalRound(minV: int, maxV: int, channels: int, i: nat)
    requires IsInt64(minV) && IsInt64(maxV) && 1 < channels <= MAX_INT64 && minV < maxV
    requires !Overruns(minV, maxV, channels) && i < |Split(minV, maxV, channels)|
    ensures RoundOk(Split(minV, maxV, channels), maxV, StepOf(minV, maxV, channels), channels, i)
  {
    var out, step := Split(minV, maxV, channels), StepOf(minV, maxV, channels);
    StepFits(minV, maxV, channels);
    assert (i + 1) * step == i * step + step;
    if i + 1 < |out| {
      TimesMonotone(i + 1, |out| - 1, step);
    }
  }
}
