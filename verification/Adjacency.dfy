/** Adjacency lists (with duplicates, as the source appends them) and their edge sets. */
module Adjacency {
  import opened Common
  import opened Digraph
  import opened Sums

  type Adj = map<Id, seq<Id>>

  ghost function EdgesOf(adj: Adj): set<Edge> {
    set a, i | a in adj && 0 <= i < |adj[a]| :: (a, adj[a][i])
  }

  lemma EdgeIsListed(adj: Adj, a: Id, b: Id)
    ensures (a, b) in EdgesOf(adj) <==> a in adj && b in adj[a]
  {
    if a in adj && b in adj[a] {
      var i :| 0 <= i < |adj[a]| && adj[a][i] == b;
      assert (a, adj[a][i]) in EdgesOf(adj);
    }
  }

  /** Appending one successor adds exactly that edge. */
  lemma AppendAddsEdge(adj: Adj, a: Id, b: Id)
    requires a in adj
    ensures EdgesOf(adj[a := adj[a] + [b]]) == EdgesOf(adj) + {(a, b)}
  {
    var grown := adj[a := adj[a] + [b]];
    forall e: Edge
      ensures e in EdgesOf(grown) <==> e in EdgesOf(adj) + {(a, b)}
    {
      EdgeIsListed(grown, e.0, e.1);
      EdgeIsListed(adj, e.0, e.1);
    }
  }

  lemma EmptyListAddsNoEdge(adj: Adj, a: Id)
    requires a !in adj
    ensures EdgesOf(adj[a := []]) == EdgesOf(adj)
  {
    forall e: Edge
      ensures e in EdgesOf(adj[a := []]) <==> e in EdgesOf(adj)
    {
      EdgeIsListed(adj[a := []], e.0, e.1);
      EdgeIsListed(adj, e.0, e.1);
    }
  }

  /** Go's map lookup: a missing key has no successors. */
  function Successors(adj: Adj, v: Id): seq<Id> {
    if v in adj then adj[v] else []
  }

  ghost function Elements(s: seq<Id>): set<Id> {
    set x | x in s
  }

  ghost predicate Distinct(s: seq<Id>) {
    forall i, j :: 0 <= i < j < |s| ==> s[i] != s[j]
  }

  lemma ElementsAppend(s: seq<Id>, x: Id)
    ensures Elements(s + [x]) == Elements(s) + {x}
  {
    assert (s + [x])[|s|] == x;
    assert forall y :: y in s + [x] <==> y in s || y == x;
  }

  lemma ElementsTake(s: seq<Id>, i: nat)
    requires i < |s|
    ensures Elements(s[..i + 1]) == Elements(s[..i]) + {s[i]}
  {
    assert s[..i + 1] == s[..i] + [s[i]];
    ElementsAppend(s[..i], s[i]);
  }

  lemma ElementsTail(s: seq<Id>)
    requires s != []
    ensures Elements(s) == {s[0]} + Elements(s[1..])
  {
    assert s == [s[0]] + s[1..];
  }

  lemma {:induction false} DistinctSize(s: seq<Id>)
    requires Distinct(s)
    ensures |Elements(s)| == |s|
    decreases |s|
  {
    if s != [] {
      DistinctSize(s[1..]);
      ElementsTail(s);
      assert s[0] !in s[1..];
    } else {
      assert Elements(s) == {};
    }
  }

  lemma {:induction false} SubsetOfSameSize(a: set<Id>, b: set<Id>)
    requires a <= b && |a| == |b|
    ensures a == b
    decreases |a|
  {
    if a != {} {
      var x :| x in a;
      SubsetOfSameSize(a - {x}, b - {x});
      assert a == (a - {x}) + {x} && b == (b - {x}) + {x};
    }
  }

  lemma {:induction false} SmallerSet(a: set<Id>, b: set<Id>)
    requires a < b
    ensures |a| < |b|
    decreases |a|
  {
    if a != {} {
      var x :| x in a;
      assert x in b && a - {x} < b - {x} by {
        var y :| y in b && y !in a;
        assert y in b - {x};
      }
      SmallerSet(a - {x}, b - {x});
    }
  }

  lemma EdgeIsSuccessor(adj: Adj, a: Id, b: Id)
    ensures (a, b) in EdgesOf(adj) <==> b in Successors(adj, a)
  {
    EdgeIsListed(adj, a, b);
  }

  // ---- in-degrees, counted with multiplicity ----

  ghost function Occurrences(s: seq<Id>, v: Id): nat {
    multiset(s)[v]
  }

  ghost function InCounts(adj: Adj, U: set<Id>, v: Id): map<Id, nat> {
    map u | u in U && u in adj :: Occurrences(adj[u], v)
  }

  /** The number of listed edges from U into v. */
  ghost function InCount(adj: Adj, U: set<Id>, v: Id): nat {
    Total(InCounts(adj, U, v))
  }

  lemma InCountAdd(adj: Adj, U: set<Id>, u: Id, v: Id)
    requires u !in U
    ensures InCount(adj, U + {u}, v) == InCount(adj, U, v) + Occurrences(Successors(adj, u), v)
  {
    var m := InCounts(adj, U, v);
    if u in adj {
      assert InCounts(adj, U + {u}, v) == m[u := Occurrences(adj[u], v)];
      TotalUpdate(m, u, Occurrences(adj[u], v));
    } else {
      assert InCounts(adj, U + {u}, v) == m;
    }
  }

  lemma InCountZero(adj: Adj, U: set<Id>, v: Id)
    ensures InCount(adj, U, v) == 0 <==> forall u :: u in U ==> v !in Successors(adj, u)
  {
    var m := InCounts(adj, U, v);
    TotalZero(m);
    forall u | u in U && u in adj
      ensures m[u] == 0 <==> v !in adj[u]
    {
    }
  }

  /** `degree` counts the edges from U, plus the entries of `extra`. */
  ghost predicate Counts(adj: Adj, U: set<Id>, extra: seq<Id>, degree: map<Id, int>) {
    && degree.Keys == adj.Keys
    && forall v :: v in adj ==> degree[v] == InCount(adj, U, v) + Occurrences(extra, v)
  }

  lemma CountsStart(adj: Adj)
    ensures Counts(adj, {}, [], map v | v in adj :: 0)
  {
    forall v | v in adj
      ensures InCount(adj, {}, v) == 0
    {
      InCountZero(adj, {}, v);
    }
  }

  lemma OccurrencesAppend(s: seq<Id>, i: nat, v: Id)
    requires i < |s|
    ensures Occurrences(s[..i + 1], v) == Occurrences(s[..i], v) + if s[i] == v then 1 else 0
  {
    assert s[..i + 1] == s[..i] + [s[i]];
  }

  lemma OccurrencesHead(s: seq<Id>, i: nat, v: Id)
    requires i < |s|
    ensures Occurrences(s[i..], v) == Occurrences(s[i + 1..], v) + if s[i] == v then 1 else 0
  {
    assert s[i..] == [s[i]] + s[i + 1..];
  }

  lemma CountsRaise(adj: Adj, U: set<Id>, s: seq<Id>, i: nat, degree: map<Id, int>)
    requires i < |s| && s[i] in adj && Counts(adj, U, s[..i], degree)
    ensures Counts(adj, U, s[..i + 1], degree[s[i] := degree[s[i]] + 1])
  {
    hide InCount, Occurrences;
    forall v | v in adj
      ensures Occurrences(s[..i + 1], v) == Occurrences(s[..i], v) + if s[i] == v then 1 else 0
    {
      OccurrencesAppend(s, i, v);
    }
  }

  lemma CountsLower(adj: Adj, U: set<Id>, s: seq<Id>, i: nat, degree: map<Id, int>)
    requires i < |s| && s[i] in adj && Counts(adj, U, s[i..], degree)
    ensures degree[s[i]] > 0
    ensures Counts(adj, U, s[i + 1..], degree[s[i] := degree[s[i]] - 1])
  {
    hide InCount, Occurrences;
    forall v | v in adj
      ensures Occurrences(s[i..], v) == Occurrences(s[i + 1..], v) + if s[i] == v then 1 else 0
    {
      OccurrencesHead(s, i, v);
    }
  }

  /** A whole successor list is worth its source node. */
  lemma CountsMove(adj: Adj, U: set<Id>, u: Id, degree: map<Id, int>)
    requires u !in U
    ensures Counts(adj, U, Successors(adj, u), degree) <==> Counts(adj, U + {u}, [], degree)
  {
    forall v | v in adj
      ensures InCount(adj, U + {u}, v) == InCount(adj, U, v) + Occurrences(Successors(adj, u), v)
    {
      InCountAdd(adj, U, u, v);
    }
  }
}
