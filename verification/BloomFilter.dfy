/** utils/bloom_filter.go: the bitmap of 64-bit words against the set of positions it stands
    for. The two hash functions are arbitrary. */
module BloomFilter {
  import opened Arithmetic

  type Data = seq<bv8>

  // ---- one word ----

  function Mask(r: bv6): bv64 {
    (1 as bv64) << r
  }

  function And(a: bv64, b: bv64): bv64 {
    a & b
  }

  function Or(a: bv64, b: bv64): bv64 {
    a | b
  }

  predicate Bit(w: bv64, r: bv6) {
    And(w, Mask(r)) != 0
  }

  // The operators under names that can be hidden: the solver expands every bit of the
  // expressions it sees.

  lemma AndIs(x: bv64, y: bv64, z: bv64)
    ensures z == And(x, y) <==> z == x & y
  {
  }

  lemma OrIs(x: bv64, y: bv64, z: bv64)
    ensures z == Or(x, y) <==> z == x | y
  {
  }

  lemma Distributes(w: bv64, a: bv64, b: bv64, both: bv64, all: bv64, fromW: bv64, fromA: bv64)
    requires both == w | a && all == both & b && fromW == w & b && fromA == a & b
    ensures all == fromW | fromA
  {
  }

  lemma AndOverOr(w: bv64, a: bv64, b: bv64)
    ensures And(Or(w, a), b) == Or(And(w, b), And(a, b))
  {
    hide And, Or;
    var both, all, fromW, fromA := Or(w, a), And(Or(w, a), b), And(w, b), And(a, b);
    OrIs(w, a, both);
    AndIs(both, b, all);
    AndIs(w, b, fromW);
    AndIs(a, b, fromA);
    Distributes(w, a, b, both, all, fromW, fromA);
    OrIs(fromW, fromA, all);
  }

  lemma OrIsZero(x: bv64, y: bv64)
    ensures Or(x, y) == 0 <==> x == 0 && y == 0
  {
  }

  lemma OrMeets(w: bv64, a: bv64, b: bv64)
    ensures And(Or(w, a), b) == 0 <==> And(w, b) == 0 && And(a, b) == 0
  {
    hide And, Or;
    AndOverOr(w, a, b);
    OrIsZero(And(w, b), And(a, b));
  }

  lemma MasksApart(r: bv6, q: bv6)
    ensures And(Mask(r), Mask(q)) == (if r == q then Mask(r) else 0)
    ensures Mask(r) != 0
  {
  }

  /** Setting one bit of a word sets that bit and no other. */
  lemma OneBitMore(w: bv64, r: bv6, q: bv6)
    ensures Bit(Or(w, Mask(r)), q) <==> Bit(w, q) || q == r
  {
    hide Mask, And, Or;
    OrMeets(w, Mask(r), Mask(q));
    MasksApart(r, q);
  }

  lemma NoBit(r: bv6)
    ensures !Bit(0, r)
  {
  }

  function Low(pos: nat): bv6 {
    (pos % 64) as bv6
  }

  lemma LowReadsBack(a: nat)
    requires a < 64
    ensures (a as bv6) as nat == a
  {
  }

  /** A position is its word and its bit. */
  lemma PlaceIsUnique(p: nat, q: nat)
    requires p / 64 == q / 64 && Low(p) == Low(q)
    ensures p == q
  {
    LowReadsBack(p % 64);
    LowReadsBack(q % 64);
    assert p == 64 * (p / 64) + p % 64 && q == 64 * (q / 64) + q % 64;
  }

  // ---- positions ----

  datatype Config = Config(m: nat, k: nat, h1: Data -> nat, h2: Data -> nat) {
    /** h1 + i * h2 in wrapping 64-bit arithmetic, reduced to the size of the map. */
    function Position(d: Data, i: nat): (pos: nat)
      requires m > 0
      ensures pos < m
    {
      (h1(d) + i * h2(d)) % TWO_TO_THE_64 % m
    }

    /** The positions of an element, one per hash function. */
    ghost function Places(d: Data): (places: seq<nat>)
      requires m > 0
      ensures |places| == k
      ensures forall i :: 0 <= i < k ==> places[i] == (h1(d) + i * h2(d)) % 0x1_0000_0000_0000_0000 % m
    {
      seq(k, i requires 0 <= i < k => Position(d, i))
    }

    lemma PlacesArePositions(d: Data)
      requires m > 0
      ensures forall p :: p in Places(d) <==> p in Positions(d, k)
    {
      hide Config.Position;
      forall p | p in Positions(d, k)
        ensures p in Places(d)
      {
        var i :| 0 <= i < k && p == Position(d, i);
        assert Places(d)[i] == p;
      }
    }

    ghost function Positions(d: Data, n: nat): set<nat>
      requires m > 0
    {
      set i | 0 <= i < n :: Position(d, i)
    }

    /** All positions of all elements. */
    ghost function Covered(added: seq<Data>): set<nat>
      requires m > 0
    {
      if added == [] then {} else Covered(added[..|added| - 1]) + Positions(added[|added| - 1], k)
    }

    lemma {:induction false} AddedIsCovered(added: seq<Data>, d: Data)
      requires m > 0 && d in added
      ensures Positions(d, k) <= Covered(added)
      decreases |added|
    {
      var n := |added| - 1;
      if added[n] != d {
        assert d in added[..n];
        AddedIsCovered(added[..n], d);
      }
    }

    lemma PositionsMore(d: Data, n: nat)
      requires m > 0
      ensures Positions(d, n + 1) == Positions(d, n) + {Position(d, n)}
    {
      hide Config.Position;
    }
  }

  class BloomFilter {
    const config: Config
    const bitmap: array<bv64>
    /** Every element ever added. */
    ghost var added: seq<Data>

    ghost predicate WellSized() {
      config.m > 0 && bitmap.Length == (config.m + 63) / 64
    }

    ghost predicate IsSet(pos: nat)
      requires WellSized() && pos < config.m
      reads bitmap
    {
      Bit(bitmap[pos / 64], Low(pos))
    }

    /** Exactly the positions of the added elements are set. */
    ghost predicate Shows(covered: set<nat>)
      requires WellSized()
      reads bitmap
    {
      forall pos: nat :: pos < config.m ==> (IsSet(pos) <==> pos in covered)
    }

    ghost predicate Valid()
      reads this, bitmap
    {
      WellSized() && Shows(config.Covered(added))
    }

    constructor (config: Config)
      requires config.m > 0
      ensures Valid() && this.config == config && added == [] && fresh(bitmap)
    {
      this.config, added := config, [];
      bitmap := new bv64[(config.m + 63) / 64](_ => 0);
      new;
      forall pos: nat | pos < config.m
        ensures !IsSet(pos)
      {
        NoBit(Low(pos));
      }
    }

    method SetBit(pos: nat, ghost covered: set<nat>)
      requires WellSized() && pos < config.m && Shows(covered)
      modifies bitmap
      ensures Shows(covered + {pos})
    {
      hide Mask, And, Or, Low, Bit;
      ghost var before := bitmap[..];
      bitmap[pos / 64] := Or(bitmap[pos / 64], Mask(Low(pos)));
      forall q: nat | q < config.m
        ensures IsSet(q) <==> q in covered || q == pos
      {
        assert Bit(before[q / 64], Low(q)) <==> q in covered;
        if q / 64 == pos / 64 {
          OneBitMore(before[pos / 64], Low(pos), Low(q));
          if Low(q) == Low(pos) {
            PlaceIsUnique(q, pos);
          }
        }
      }
    }

    method GetBit(pos: nat) returns (r: bool)
      requires WellSized() && pos < config.m
      ensures r == IsSet(pos)
    {
      r := And(bitmap[pos / 64], Mask(Low(pos))) != 0;
    }

    method Add(d: Data)
      requires Valid()
      modifies bitmap, `added
      ensures Valid() && added == old(added) + [d]
      ensures forall pos: nat :: pos < config.m ==> (IsSet(pos) <==> old(IsSet(pos)) || pos in config.Places(d))
    {
      hide Config.Position;
      config.PlacesArePositions(d);
      ghost var covered := config.Covered(added);
      for i := 0 to config.k
        invariant added == old(added) && Shows(covered + config.Positions(d, i))
      {
        SetBit(config.Position(d, i), covered + config.Positions(d, i));
        config.PositionsMore(d, i);
        assert covered + config.Positions(d, i + 1) == covered + config.Positions(d, i) + {config.Position(d, i)};
      }
      added := added + [d];
      assert added[..|added| - 1] == old(added);
    }

    /** Never false for an added element, and true only when the added elements cover every
        position of the one asked for. */
    method MightContain(d: Data) returns (r: bool)
      requires Valid()
      ensures r <==> config.Positions(d, config.k) <= config.Covered(added)
      ensures r <==> forall i :: 0 <= i < config.k ==> IsSet(config.Places(d)[i])
      ensures d in added ==> r
    {
      hide Config.Position;
      config.PlacesArePositions(d);
      if d in added {
        config.AddedIsCovered(added, d);
      }
      for i := 0 to config.k
        invariant config.Positions(d, i) <= config.Covered(added)
      {
        config.PositionsMore(d, i);
        var set_ := GetBit(config.Position(d, i));
        if !set_ {
          assert config.Position(d, i) in config.Positions(d, config.k);
          return false;
        }
      }
      return true;
    }
  }
}
