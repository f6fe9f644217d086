/** Finite directed graphs: paths, reachability, cycles. */
module Digraph {
  import opened Common

  type Edge = (Id, Id)

  ghost predicate IsPath(E: set<Edge>, p: seq<Id>) {
    |p| > 0 && forall i :: 0 <= i < |p| - 1 ==> (p[i], p[i + 1]) in E
  }

  ghost predicate PathBetween(E: set<Edge>, p: seq<Id>, a: Id, b: Id) {
    IsPath(E, p) && p[0] == a && p[|p| - 1] == b
  }

  /** Reachable by zero or more edges. */
  ghost predicate Reaches(E: set<Edge>, a: Id, b: Id) {
    exists p :: PathBetween(E, p, a, b)
  }

  ghost predicate OnCycle(E: set<Edge>, c: Id) {
    exists d :: (c, d) in E && Reaches(E, d, c)
  }

  ghost predicate Acyclic(E: set<Edge>) {
    forall c :: !OnCycle(E, c)
  }

  /** In an acyclic graph no edge can be walked back. */
  lemma NoWayBack(E: set<Edge>, a: Id, b: Id)
    requires Acyclic(E) && (a, b) in E
    ensures !Reaches(E, b, a)
  {
    assert !OnCycle(E, a);
  }

  /** The edges with both ends in S. */
  ghost function Inside(E: set<Edge>, S: set<Id>): set<Edge> {
    set e | e in E && e.0 in S && e.1 in S
  }

  ghost predicate Closed(E: set<Edge>, S: set<Id>) {
    forall e :: e in E && e.0 in S ==> e.1 in S
  }

  lemma ReachesSelf(E: set<Edge>, a: Id)
    ensures Reaches(E, a, a)
  {
    assert PathBetween(E, [a], a, a);
  }

  lemma ReachesEdge(E: set<Edge>, a: Id, b: Id)
    requires (a, b) in E
    ensures Reaches(E, a, b)
  {
    assert PathBetween(E, [a, b], a, b);
  }

  lemma ReachesTrans(E: set<Edge>, a: Id, b: Id, c: Id)
    requires Reaches(E, a, b) && Reaches(E, b, c)
    ensures Reaches(E, a, c)
  {
    var p :| PathBetween(E, p, a, b);
    var q :| PathBetween(E, q, b, c);
    var r := p + q[1..];
    forall i | 0 <= i < |r| - 1
      ensures (r[i], r[i + 1]) in E
    {
      if i < |p| - 1 {
        assert (p[i], p[i + 1]) in E;
      } else {
        var j := i - (|p| - 1);
        assert r[i] == q[j] && r[i + 1] == q[j + 1];
        assert (q[j], q[j + 1]) in E;
      }
    }
    assert PathBetween(E, r, a, c);
  }

  lemma ReachesMonotone(E: set<Edge>, F: set<Edge>, a: Id, b: Id)
    requires E <= F && Reaches(E, a, b)
    ensures Reaches(F, a, b)
  {
    var p :| PathBetween(E, p, a, b);
    assert PathBetween(F, p, a, b);
  }

  lemma AcyclicSubset(E: set<Edge>, F: set<Edge>)
    requires E <= F && Acyclic(F)
    ensures Acyclic(E)
  {
    forall c | OnCycle(E, c)
      ensures false
    {
      var d :| (c, d) in E && Reaches(E, d, c);
      ReachesMonotone(E, F, d, c);
      assert OnCycle(F, c);
    }
  }

  lemma SubPath(E: set<Edge>, p: seq<Id>, i: nat, j: nat)
    requires IsPath(E, p) && i <= j < |p|
    ensures Reaches(E, p[i], p[j])
  {
    var q := p[i..j + 1];
    forall k | 0 <= k < |q| - 1
      ensures (q[k], q[k + 1]) in E
    {
      assert (p[i + k], p[i + k + 1]) in E;
    }
    assert PathBetween(E, q, p[i], p[j]);
  }

  /** A closed set is never left. */
  lemma ClosedKeeps(E: set<Edge>, S: set<Id>, a: Id, b: Id)
    requires Closed(E, S) && a in S && Reaches(E, a, b)
    ensures b in S
  {
    var p :| PathBetween(E, p, a, b);
    ClosedKeepsPath(E, S, p, |p| - 1);
  }

  lemma {:induction false} ClosedKeepsPath(E: set<Edge>, S: set<Id>, p: seq<Id>, k: nat)
    requires Closed(E, S) && IsPath(E, p) && p[0] in S && k < |p|
    ensures p[k] in S
  {
    if k > 0 {
      ClosedKeepsPath(E, S, p, k - 1);
      assert (p[k - 1], p[k - 1 + 1]) in E;
    }
  }

  // ---- adding one edge ----

  lemma {:induction false} SplitAtNewEdge(E: set<Edge>, a: Id, b: Id, p: seq<Id>)
    requires IsPath(E + {(a, b)}, p)
    ensures Reaches(E, p[0], p[|p| - 1]) || (Reaches(E, p[0], a) && Reaches(E, b, p[|p| - 1]))
    decreases |p|
  {
    var x, y := p[0], p[|p| - 1];
    if |p| == 1 {
      ReachesSelf(E, x);
    } else {
      var q := p[1..];
      forall i | 0 <= i < |q| - 1
        ensures (q[i], q[i + 1]) in E + {(a, b)}
      {
        assert (p[i + 1], p[i + 1 + 1]) in E + {(a, b)};
      }
      SplitAtNewEdge(E, a, b, q);
      assert (p[0], p[0 + 1]) in E + {(a, b)};
      if (x, q[0]) in E {
        ReachesEdge(E, x, q[0]);
        if Reaches(E, q[0], y) {
          ReachesTrans(E, x, q[0], y);
        } else {
          ReachesTrans(E, x, q[0], a);
        }
      } else {
        ReachesSelf(E, a);
      }
    }
  }

  /** Adding a -> b to an acyclic graph closes a cycle exactly when b already reaches a. */
  lemma AddEdgeKeepsAcyclic(E: set<Edge>, a: Id, b: Id)
    requires Acyclic(E)
    ensures Acyclic(E + {(a, b)}) <==> !Reaches(E, b, a)
  {
    var F := E + {(a, b)};
    if Reaches(E, b, a) {
      ReachesMonotone(E, F, b, a);
      assert OnCycle(F, a);
    } else {
      forall c | OnCycle(F, c)
        ensures false
      {
        var d :| (c, d) in F && Reaches(F, d, c);
        var p :| PathBetween(F, p, d, c);
        SplitAtNewEdge(E, a, b, p);
        if (c, d) in E {
          NoWayBack(E, c, d);
          ReachesEdge(E, c, d);
          ReachesTrans(E, b, c, d);
          ReachesTrans(E, b, d, a);
        }
      }
    }
  }

  // ---- no source left implies a cycle ----

  lemma {:induction false} NoDuplicatesFit(p: seq<Id>, S: set<Id>)
    requires forall i :: 0 <= i < |p| ==> p[i] in S
    requires forall i, j :: 0 <= i < j < |p| ==> p[i] != p[j]
    ensures |p| <= |S|
    decreases |p|
  {
    if |p| > 0 {
      NoDuplicatesFit(p[1..], S - {p[0]});
    }
  }

  lemma Prepend(E: set<Edge>, u: Id, q: seq<Id>) returns (p: seq<Id>)
    requires IsPath(E, q) && (u, q[0]) in E
    ensures p == [u] + q && IsPath(E, p)
  {
    p := [u] + q;
    forall i | 0 <= i < |p| - 1
      ensures (p[i], p[i + 1]) in E
    {
      if i > 0 {
        assert (q[i - 1], q[i - 1 + 1]) in E;
      }
    }
  }

  lemma Repeats(p: seq<Id>, S: set<Id>) returns (i: nat, j: nat)
    requires |p| > |S| && forall k :: 0 <= k < |p| ==> p[k] in S
    ensures i < j < |p| && p[i] == p[j]
  {
    if forall i, j :: 0 <= i < j < |p| ==> p[i] != p[j] {
      NoDuplicatesFit(p, S);
    }
    i, j :| 0 <= i < j < |p| && p[i] == p[j];
  }

  ghost predicate HasPredecessor(E: set<Edge>, R: set<Id>, v: Id) {
    exists u :: u in R && (u, v) in E
  }

  ghost predicate AllHavePredecessor(E: set<Edge>, R: set<Id>) {
    forall v {:trigger HasPredecessor(E, R, v)} :: v in R ==> HasPredecessor(E, R, v)
  }

  /** Walk backwards k edges from n without leaving R. */
  lemma {:induction false} BackwardPath(E: set<Edge>, R: set<Id>, n: Id, k: nat) returns (p: seq<Id>)
    requires n in R
    requires AllHavePredecessor(E, R)
    ensures IsPath(E, p) && |p| == k + 1 && p[k] == n
    ensures forall i :: 0 <= i <= k ==> p[i] in R
  {
    if k == 0 {
      p := [n];
    } else {
      var q := BackwardPath(E, R, n, k - 1);
      assert HasPredecessor(E, R, q[0]);
      var u :| u in R && (u, q[0]) in E;
      p := Prepend(E, u, q);
    }
  }

  /** In a finite set where every node has a predecessor inside the set, every node
      is reachable from a cycle. */
  lemma NoSourceImpliesCycle(E: set<Edge>, R: set<Id>, n: Id)
    requires n in R
    requires AllHavePredecessor(E, R)
    ensures exists c :: OnCycle(E, c) && Reaches(E, c, n)
  {
    var p := BackwardPath(E, R, n, |R|);
    var i, j := Repeats(p, R);
    assert (p[i], p[i + 1]) in E;
    SubPath(E, p, i + 1, j);
    assert OnCycle(E, p[i]);
    SubPath(E, p, i, |p| - 1);
  }

  // ---- topological orders ----

  /** Every predecessor of a listed node is listed before it. */
  ghost predicate PredecessorsFirst(E: set<Edge>, order: seq<Id>) {
    && (forall i, j :: 0 <= i < j < |order| ==> order[i] != order[j])
    && (forall e, i :: e in E && 0 <= i < |order| && order[i] == e.1 ==> e.0 in order[..i])
  }

  lemma {:induction false} AncestorsFirst(E: set<Edge>, order: seq<Id>, p: seq<Id>, i: nat) returns (j: nat)
    requires PredecessorsFirst(E, order) && IsPath(E, p)
    requires i < |order| && order[i] == p[|p| - 1]
    ensures j <= i && order[j] == p[0]
    decreases |p|
  {
    if |p| == 1 {
      j := i;
    } else {
      var u := p[|p| - 2];
      assert (p[|p| - 2], p[|p| - 2 + 1]) in E;
      assert u in order[..i];
      var k :| 0 <= k < i && order[k] == u;
      var q := p[..|p| - 1];
      forall m | 0 <= m < |q| - 1
        ensures (q[m], q[m + 1]) in E
      {
        assert (p[m], p[m + 1]) in E;
      }
      j := AncestorsFirst(E, order, q, k);
    }
  }

  /** No listed node is reachable from a cycle. */
  lemma ListedNotBelowCycle(E: set<Edge>, order: seq<Id>, c: Id, n: Id)
    requires PredecessorsFirst(E, order) && n in order && OnCycle(E, c)
    ensures !Reaches(E, c, n)
  {
    if Reaches(E, c, n) {
      var i :| 0 <= i < |order| && order[i] == n;
      var p :| PathBetween(E, p, c, n);
      var j := AncestorsFirst(E, order, p, i);
      var d :| (c, d) in E && Reaches(E, d, c);
      var q :| PathBetween(E, q, d, c);
      var k := AncestorsFirst(E, order, q, j);
    }
  }

  // ---- maps between graphs ----

  ghost predicate MapsInto(E: set<Edge>, F: set<Edge>, h: map<Id, Id>) {
    forall e :: e in E ==> e.0 in h && e.1 in h && (h[e.0], h[e.1]) in F
  }

  lemma {:induction false} MappedPath(E: set<Edge>, F: set<Edge>, h: map<Id, Id>, p: seq<Id>)
    requires MapsInto(E, F, h) && IsPath(E, p) && p[0] in h
    ensures p[|p| - 1] in h && Reaches(F, h[p[0]], h[p[|p| - 1]])
    decreases |p|
  {
    if |p| == 1 {
      ReachesSelf(F, h[p[0]]);
    } else {
      var q := p[..|p| - 1];
      forall m | 0 <= m < |q| - 1
        ensures (q[m], q[m + 1]) in E
      {
        assert (p[m], p[m + 1]) in E;
      }
      MappedPath(E, F, h, q);
      var a, b := p[|p| - 2], p[|p| - 1];
      assert (p[|p| - 2], p[|p| - 2 + 1]) in E;
      ReachesEdge(F, h[a], h[b]);
      ReachesTrans(F, h[p[0]], h[a], h[b]);
    }
  }

  /** A graph that maps edge by edge into an acyclic graph is acyclic. */
  lemma MappedAcyclic(E: set<Edge>, F: set<Edge>, h: map<Id, Id>)
    requires MapsInto(E, F, h) && Acyclic(F)
    ensures Acyclic(E)
  {
    forall c | OnCycle(E, c)
      ensures false
    {
      var d :| (c, d) in E && Reaches(E, d, c);
      var p :| PathBetween(E, p, d, c);
      MappedPath(E, F, h, p);
      NoWayBack(F, h[c], h[d]);
    }
  }

  // ---- graphs without common nodes ----

  ghost function Ends(E: set<Edge>): set<Id> {
    (set e | e in E :: e.0) + (set e | e in E :: e.1)
  }

  lemma EdgeEnds(E: set<Edge>, a: Id, b: Id)
    ensures (a, b) in E ==> a in Ends(E) && b in Ends(E)
  {
    assert (a, b).0 == a && (a, b).1 == b;
  }

  lemma {:induction false} PathStaysApart(E: set<Edge>, F: set<Edge>, p: seq<Id>)
    requires Ends(E) !! Ends(F) && IsPath(E + F, p) && p[0] in Ends(E)
    ensures IsPath(E, p)
    decreases |p|
  {
    if |p| > 1 {
      var q := p[1..];
      assert (p[0], p[0 + 1]) in E + F;
      EdgeEnds(F, p[0], p[1]);
      EdgeEnds(E, p[0], p[1]);
      forall i | 0 <= i < |q| - 1
        ensures (q[i], q[i + 1]) in E + F
      {
        assert (p[i + 1], p[i + 1 + 1]) in E + F;
      }
      PathStaysApart(E, F, q);
      var r := Prepend(E, p[0], q);
      assert r == p;
    }
  }

  lemma CycleStaysApart(E: set<Edge>, F: set<Edge>, c: Id, d: Id)
    requires Ends(E) !! Ends(F) && (c, d) in E && Reaches(E + F, d, c)
    ensures OnCycle(E, c)
  {
    var p :| PathBetween(E + F, p, d, c);
    EdgeEnds(E, c, d);
    PathStaysApart(E, F, p);
    assert PathBetween(E, p, d, c);
  }

  /** Acyclic graphs without a common node are acyclic together. */
  lemma ApartAcyclic(E: set<Edge>, F: set<Edge>)
    requires Ends(E) !! Ends(F) && Acyclic(E) && Acyclic(F)
    ensures Acyclic(E + F)
  {
    forall c | OnCycle(E + F, c)
      ensures false
    {
      var d :| (c, d) in E + F && Reaches(E + F, d, c);
      if (c, d) in E {
        CycleStaysApart(E, F, c, d);
      } else {
        assert E + F == F + E;
        CycleStaysApart(F, E, c, d);
      }
    }
  }

  // ---- descendants ----

  /** Targets of edges that a reaches by at least one edge. */
  ghost function Below(E: set<Edge>, a: Id): set<Id> {
    set e | e in E && (exists d :: (a, d) in E && Reaches(E, d, e.1)) :: e.1
  }

  /** In an acyclic graph the set of descendants shrinks along every edge. */
  lemma BelowShrinks(E: set<Edge>, a: Id, b: Id)
    requires Acyclic(E) && (a, b) in E
    ensures Below(E, b) < Below(E, a)
  {
    forall x | x in Below(E, b)
      ensures x in Below(E, a)
    {
      var e :| e in E && e.1 == x && exists d :: (b, d) in E && Reaches(E, d, e.1);
      var d :| (b, d) in E && Reaches(E, d, x);
      ReachesEdge(E, b, d);
      ReachesTrans(E, b, d, x);
    }
    ReachesSelf(E, b);
    assert b in Below(E, a) by {
      assert (a, b) in E && Reaches(E, b, (a, b).1);
    }
    assert !OnCycle(E, b);
  }
}
