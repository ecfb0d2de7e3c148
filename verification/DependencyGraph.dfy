/**
 * The dependency graph of src/contract_validation.rs. Its depth-first search keeps no set of
 * visited nodes, so whether it returns at all is part of what has to be proved.
 *
 * `Search` runs the recursion to a given depth and answers `None` when the depth does not
 * suffice. `SearchEndsExactly` says when it returns and `AcceptedExactly` which graphs the validator
 * accepts. On an acyclic graph both always return; there the guard `would_create_cycle` refuses
 * exactly the edges that close a cycle, so a graph built under it stays acyclic.
 */
module DependencyGraph {
  import opened Wrappers

  type Node = string
  type Graph = map<Node, seq<Node>>

  function Neighbors(g: Graph, a: Node): seq<Node> {
    if a in g then g[a] else []
  }

  function AddEdge(g: Graph, from: Node, to: Node): Graph {
    g[from := Neighbors(g, from) + [to]]
  }

  // ---------------------------------------------------------------------------------------------
  // Walks and cycles

  ghost predicate IsWalk(g: Graph, p: seq<Node>) {
    |p| > 0 && forall i :: 0 <= i < |p| - 1 ==> p[i + 1] in Neighbors(g, p[i])
  }

  ghost predicate WalkBetween(g: Graph, p: seq<Node>, a: Node, b: Node) {
    IsWalk(g, p) && p[0] == a && p[|p| - 1] == b
  }

  ghost predicate Reaches(g: Graph, a: Node, b: Node) {
    exists p :: WalkBetween(g, p, a, b)
  }

  /** A walk that comes back to the node it visited at position `i`. */
  ghost predicate ClosesAt(g: Graph, p: seq<Node>, i: nat) {
    IsWalk(g, p) && i < |p| - 1 && p[i] == p[|p| - 1]
  }

  ghost predicate CycleFrom(g: Graph, a: Node) {
    exists p, i :: ClosesAt(g, p, i) && p[0] == a
  }

  ghost predicate Acyclic(g: Graph) {
    forall a :: !CycleFrom(g, a)
  }

  /** No walk from `a` has more than `d` nodes. */
  ghost predicate Bounded(g: Graph, a: Node, d: nat) {
    forall p :: IsWalk(g, p) && p[0] == a ==> |p| <= d
  }

  lemma {:induction false} WalkTail(g: Graph, p: seq<Node>)
    requires IsWalk(g, p) && |p| > 1
    ensures IsWalk(g, p[1..]) && p[1] in Neighbors(g, p[0])
  {
    assert p[0 + 1] in Neighbors(g, p[0]);
    forall i | 0 <= i < |p[1..]| - 1 ensures p[1..][i + 1] in Neighbors(g, p[1..][i]) {
      assert p[(i + 1) + 1] in Neighbors(g, p[i + 1]);
    }
  }

  lemma {:induction false} WalkPrepend(g: Graph, a: Node, p: seq<Node>)
    requires IsWalk(g, p) && p[0] in Neighbors(g, a)
    ensures IsWalk(g, [a] + p)
  {
    var q := [a] + p;
    forall i | 0 <= i < |q| - 1 ensures q[i + 1] in Neighbors(g, q[i]) {
      if i > 0 {
        assert p[(i - 1) + 1] in Neighbors(g, p[i - 1]);
      }
    }
  }

  lemma {:induction false} BoundedNeighbor(g: Graph, a: Node, b: Node, d: nat)
    requires Bounded(g, a, d + 1) && b in Neighbors(g, a)
    ensures Bounded(g, b, d)
  {
    forall p | IsWalk(g, p) && p[0] == b ensures |p| <= d {
      WalkPrepend(g, a, p);
      assert ([a] + p)[0] == a;
    }
  }

  /** Reaching a node is being it, or having a neighbor that reaches it. */
  lemma {:induction false} ReachesUnfolds(g: Graph, a: Node, b: Node)
    ensures Reaches(g, a, b) <==> a == b || exists n :: n in Neighbors(g, a) && Reaches(g, n, b)
  {
    if a == b {
      assert WalkBetween(g, [a], a, b);
    }
    if Reaches(g, a, b) && a != b {
      var p :| WalkBetween(g, p, a, b);
      WalkTail(g, p);
      assert WalkBetween(g, p[1..], p[1], b);
    }
    if n :| n in Neighbors(g, a) && Reaches(g, n, b) {
      var p :| WalkBetween(g, p, n, b);
      WalkPrepend(g, a, p);
      assert WalkBetween(g, [a] + p, a, b);
    }
  }

  // ---------------------------------------------------------------------------------------------
  // The search

  /** `can_reach` with at most `depth` nested calls; `None` if they do not suffice. */
  function Search(g: Graph, from: Node, to: Node, depth: nat): Option<bool>
    decreases depth, 0
  {
    if depth == 0 then None
    else if from == to then Some(true)
    else SearchAny(g, Neighbors(g, from), to, depth - 1)
  }

  function SearchAny(g: Graph, nodes: seq<Node>, to: Node, depth: nat): Option<bool>
    decreases depth, 1 + |nodes|
  {
    if nodes == [] then Some(false)
    else
      match Search(g, nodes[0], to, depth)
      case None => None
      case Some(found) => if found then Some(true) else SearchAny(g, nodes[1..], to, depth)
  }

  lemma {:induction false} SearchAnyFalse(g: Graph, nodes: seq<Node>, to: Node, depth: nat, n: Node)
    requires SearchAny(g, nodes, to, depth).Some? && !SearchAny(g, nodes, to, depth).value && n in nodes
    ensures Search(g, n, to, depth).Some? && !Search(g, n, to, depth).value
  {
    if n != nodes[0] {
      SearchAnyFalse(g, nodes[1..], to, depth, n);
    }
  }

  lemma {:induction false} SearchAnyTrue(g: Graph, nodes: seq<Node>, to: Node, depth: nat) returns (n: Node)
    requires SearchAny(g, nodes, to, depth).Some? && SearchAny(g, nodes, to, depth).value
    ensures n in nodes && Search(g, n, to, depth).Some? && Search(g, n, to, depth).value
  {
    if Search(g, nodes[0], to, depth).value {
      n := nodes[0];
    } else {
      n := SearchAnyTrue(g, nodes[1..], to, depth);
    }
  }

  /** Whenever the search returns, its answer is right, on any graph. */
  lemma {:induction false} SearchIsSound(g: Graph, from: Node, to: Node, depth: nat)
    ensures Search(g, from, to, depth).Some? ==> (Search(g, from, to, depth).value <==> Reaches(g, from, to))
    decreases depth
  {
    ReachesUnfolds(g, from, to);
    if depth > 0 && from != to {
      var r := SearchAny(g, Neighbors(g, from), to, depth - 1);
      if r.Some? && r.value {
        var n := SearchAnyTrue(g, Neighbors(g, from), to, depth - 1);
        SearchIsSound(g, n, to, depth - 1);
      } else if r.Some? {
        forall n | n in Neighbors(g, from) ensures !Reaches(g, n, to) {
          SearchAnyFalse(g, Neighbors(g, from), to, depth - 1, n);
          SearchIsSound(g, n, to, depth - 1);
        }
      }
    }
  }

  /** A search that comes back empty-handed has followed every walk to its end. */
  lemma {:induction false} FalseMeansBounded(g: Graph, from: Node, to: Node, depth: nat)
    requires Search(g, from, to, depth).Some? && !Search(g, from, to, depth).value
    ensures Bounded(g, from, depth)
    decreases depth
  {
    forall p | IsWalk(g, p) && p[0] == from ensures |p| <= depth {
      if |p| > 1 {
        WalkTail(g, p);
        SearchAnyFalse(g, Neighbors(g, from), to, depth - 1, p[1]);
        FalseMeansBounded(g, p[1], to, depth - 1);
        assert |p[1..]| <= depth - 1;
      }
    }
  }

  /** With no walk longer than the depth, the search returns. */
  lemma {:induction false} BoundedSearchReturns(g: Graph, from: Node, to: Node, depth: nat)
    requires Bounded(g, from, depth)
    ensures Search(g, from, to, depth).Some?
    decreases depth, 0
  {
    assert IsWalk(g, [from]);
    assert depth > 0;
    if from != to {
      forall n | n in Neighbors(g, from) ensures Bounded(g, n, depth - 1) {
        BoundedNeighbor(g, from, n, depth - 1);
      }
      BoundedSearchAnyReturns(g, Neighbors(g, from), to, depth - 1);
    }
  }

  lemma {:induction false} BoundedSearchAnyReturns(g: Graph, nodes: seq<Node>, to: Node, depth: nat)
    requires forall n :: n in nodes ==> Bounded(g, n, depth)
    ensures SearchAny(g, nodes, to, depth).Some?
    decreases depth, 1 + |nodes|
  {
    if nodes != [] {
      BoundedSearchReturns(g, nodes[0], to, depth);
      BoundedSearchAnyReturns(g, nodes[1..], to, depth);
    }
  }

  // ---------------------------------------------------------------------------------------------
  // Cycles and bounds

  lemma {:induction false} WalkPrefix(g: Graph, p: seq<Node>, k: nat)
    requires IsWalk(g, p) && 0 < k <= |p|
    ensures IsWalk(g, p[..k])
  {
    forall i | 0 <= i < |p[..k]| - 1 ensures p[..k][i + 1] in Neighbors(g, p[..k][i]) {
      assert p[i + 1] in Neighbors(g, p[i]);
    }
  }

  /** Without a cycle within reach, a walk never repeats a node, so it is no longer than the graph. */
  lemma {:induction false} AcyclicIsBounded(g: Graph, a: Node)
    requires !CycleFrom(g, a)
    ensures Bounded(g, a, |g| + 1)
  {
    forall p | IsWalk(g, p) && p[0] == a ensures |p| <= |g| + 1 {
      var front := p[..|p| - 1];
      forall i, j | 0 <= i < j < |front| ensures front[i] != front[j] {
        WalkPrefix(g, p, j + 1);
        assert !ClosesAt(g, p[..j + 1], i);
      }
      forall i | 0 <= i < |front| ensures front[i] in g.Keys {
        assert p[i + 1] in Neighbors(g, p[i]);
      }
      DistinctFit(front, g.Keys);
    }
  }

  lemma {:induction false} DistinctFit(s: seq<Node>, t: set<Node>)
    requires forall i, j :: 0 <= i < j < |s| ==> s[i] != s[j]
    requires forall i :: 0 <= i < |s| ==> s[i] in t
    ensures |s| <= |t|
  {
    if s != [] {
      var n := |s| - 1;
      DistinctFit(s[..n], t - {s[n]});
    }
  }

  /** Walking round a cycle gives walks of any length. */
  lemma {:induction false} CycleIsUnbounded(g: Graph, p: seq<Node>, i: nat, d: nat) returns (q: seq<Node>)
    requires ClosesAt(g, p, i)
    ensures ClosesAt(g, q, i) && q[0] == p[0] && |q| > d
  {
    q := p;
    while |q| <= d
      invariant ClosesAt(g, q, i) && q[0] == p[0]
      decreases d - |q|
    {
      q := OneMoreLap(g, q, i);
    }
  }

  lemma {:induction false} OneMoreLap(g: Graph, p: seq<Node>, i: nat) returns (q: seq<Node>)
    requires ClosesAt(g, p, i)
    ensures ClosesAt(g, q, i) && q[0] == p[0] && |q| > |p|
  {
    q := p + p[i + 1..];
    forall k | 0 <= k < |q| - 1 ensures q[k + 1] in Neighbors(g, q[k]) {
      var j := if k < |p| - 1 then k else k - (|p| - 1) + i;
      assert p[j + 1] in Neighbors(g, p[j]);
    }
  }

  /** A search for a node out of reach returns exactly when it cannot run into a cycle. */
  lemma {:induction false} FailingSearchEnds(g: Graph, from: Node, to: Node)
    requires !Reaches(g, from, to)
    ensures (exists depth :: Search(g, from, to, depth).Some?) <==> !CycleFrom(g, from)
  {
    if !CycleFrom(g, from) {
      AcyclicIsBounded(g, from);
      BoundedSearchReturns(g, from, to, |g| + 1);
    } else {
      forall depth ensures Search(g, from, to, depth).None? {
        SearchIsSound(g, from, to, depth);
        if Search(g, from, to, depth).Some? {
          FalseMeansBounded(g, from, to, depth);
          var p, i :| ClosesAt(g, p, i) && p[0] == from;
          var q := CycleIsUnbounded(g, p, i, depth);
        }
      }
    }
  }

  /** A node that the search leaves again: it leads neither to the target nor into a cycle. */
  ghost predicate Dead(g: Graph, a: Node, to: Node) {
    !Reaches(g, a, to) && !CycleFrom(g, a)
  }

  ghost predicate AllDead(g: Graph, nodes: seq<Node>, to: Node) {
    forall i :: 0 <= i < |nodes| ==> Dead(g, nodes[i], to)
  }

  /** `n` is the first neighbor of `a` that is not dead, at position `k`. */
  ghost predicate FirstLive(g: Graph, a: Node, n: Node, to: Node, k: nat) {
    k < |Neighbors(g, a)| && Neighbors(g, a)[k] == n && AllDead(g, Neighbors(g, a)[..k], to)
  }

  /** A walk to the target on which every step goes to a neighbor with only dead ones before it. */
  ghost predicate Straight(g: Graph, p: seq<Node>, to: Node)
    decreases |p|
  {
    && |p| > 0
    && (p[0] == to || (|p| > 1 && Straight(g, p[1..], to) && exists k :: FirstLive(g, p[0], p[1], to, k)))
  }

  lemma {:induction false} FoundFirst(g: Graph, nodes: seq<Node>, to: Node, depth: nat) returns (k: nat)
    requires SearchAny(g, nodes, to, depth).Some? && SearchAny(g, nodes, to, depth).value
    ensures k < |nodes| && Search(g, nodes[k], to, depth) == Some(true) && AllDead(g, nodes[..k], to)
  {
    if Search(g, nodes[0], to, depth).value {
      k := 0;
    } else {
      var j := FoundFirst(g, nodes[1..], to, depth);
      k := j + 1;
      SearchIsSound(g, nodes[0], to, depth);
      FailingSearchEnds(g, nodes[0], to);
      assert nodes[..k] == [nodes[0]] + nodes[1..][..j];
    }
  }

  lemma {:induction false} FoundIsStraight(g: Graph, from: Node, to: Node, depth: nat) returns (p: seq<Node>)
    requires Search(g, from, to, depth).Some? && Search(g, from, to, depth).value
    ensures Straight(g, p, to) && p[0] == from
    decreases depth
  {
    if from == to {
      p := [from];
    } else {
      var k := FoundFirst(g, Neighbors(g, from), to, depth - 1);
      var q := FoundIsStraight(g, Neighbors(g, from)[k], to, depth - 1);
      p := [from] + q;
      assert p[1..] == q && FirstLive(g, from, p[1], to, k);
    }
  }

  lemma {:induction false} DeadSearch(g: Graph, a: Node, to: Node, depth: nat)
    requires Dead(g, a, to) && depth > |g|
    ensures Search(g, a, to, depth).Some? && !Search(g, a, to, depth).value
  {
    AcyclicIsBounded(g, a);
    BoundedSearchReturns(g, a, to, depth);
    SearchIsSound(g, a, to, depth);
  }

  lemma {:induction false} SkipsTheDead(g: Graph, nodes: seq<Node>, to: Node, depth: nat, k: nat)
    requires k < |nodes| && depth > |g| && AllDead(g, nodes[..k], to) && Search(g, nodes[k], to, depth) == Some(true)
    ensures SearchAny(g, nodes, to, depth) == Some(true)
  {
    if k > 0 {
      assert nodes[..k][0] == nodes[0] && nodes[1..][..k - 1] == nodes[..k][1..];
      DeadSearch(g, nodes[0], to, depth);
      SkipsTheDead(g, nodes[1..], to, depth, k - 1);
    }
  }

  lemma {:induction false} StraightIsFound(g: Graph, p: seq<Node>, to: Node)
    requires Straight(g, p, to)
    ensures Search(g, p[0], to, |g| + 1 + |p|) == Some(true)
    decreases |p|
  {
    if p[0] != to {
      StraightIsFound(g, p[1..], to);
      var k :| FirstLive(g, p[0], p[1], to, k);
      SkipsTheDead(g, Neighbors(g, p[0]), to, |g| + |p|, k);
    }
  }

  ghost predicate Ends(g: Graph, from: Node, to: Node) {
    exists depth :: Search(g, from, to, depth).Some?
  }

  /**
   * On any graph and for any target, the search returns exactly when its start is dead or the walk
   * that always goes on to the first neighbor that is not dead comes to the target.
   */
  lemma {:induction false} SearchEndsExactly(g: Graph, from: Node, to: Node)
    ensures Ends(g, from, to) <==> Dead(g, from, to) || exists p :: Straight(g, p, to) && p[0] == from
  {
    if Ends(g, from, to) {
      var depth :| Search(g, from, to, depth).Some?;
      SearchIsSound(g, from, to, depth);
      if Search(g, from, to, depth).value {
        var p := FoundIsStraight(g, from, to, depth);
      } else {
        FailingSearchEnds(g, from, to);
      }
    }
    if Dead(g, from, to) {
      DeadSearch(g, from, to, |g| + 1);
    } else if p :| Straight(g, p, to) && p[0] == from {
      StraightIsFound(g, p, to);
    }
  }

  /** Where no cycle is in reach the search returns, for every target, and tells the truth. */
  lemma {:induction false} AcyclicSearch(g: Graph, from: Node, to: Node)
    requires !CycleFrom(g, from)
    ensures Search(g, from, to, |g| + 1) == Some(Reaches(g, from, to))
  {
    AcyclicIsBounded(g, from);
    BoundedSearchReturns(g, from, to, |g| + 1);
    SearchIsSound(g, from, to, |g| + 1);
  }

  // ---------------------------------------------------------------------------------------------
  // Adding an edge

  lemma {:induction false} EdgesAfter(g: Graph, from: Node, to: Node, a: Node, b: Node)
    ensures b in Neighbors(AddEdge(g, from, to), a) <==> b in Neighbors(g, a) || (a == from && b == to)
  {
  }

  lemma {:induction false} WalkStays(g: Graph, from: Node, to: Node, p: seq<Node>)
    requires IsWalk(g, p)
    ensures IsWalk(AddEdge(g, from, to), p)
  {
    forall i | 0 <= i < |p| - 1 ensures p[i + 1] in Neighbors(AddEdge(g, from, to), p[i]) {
      assert p[i + 1] in Neighbors(g, p[i]);
    }
  }

  /** A walk to `from` in the larger graph needs no new edge up to its first visit of `from`. */
  lemma {:induction false} WalkToSource(g: Graph, from: Node, to: Node, p: seq<Node>, a: Node)
    requires WalkBetween(AddEdge(g, from, to), p, a, from)
    ensures Reaches(g, a, from)
    decreases |p|
  {
    ReachesUnfolds(g, a, from);
    if a != from {
      WalkTail(AddEdge(g, from, to), p);
      EdgesAfter(g, from, to, p[0], p[1]);
      WalkToSource(g, from, to, p[1..], p[1]);
    }
  }

  lemma {:induction false} WalkSuffix(g: Graph, p: seq<Node>, k: nat)
    requires IsWalk(g, p) && k < |p|
    ensures IsWalk(g, p[k..])
  {
    forall i | 0 <= i < |p[k..]| - 1 ensures p[k..][i + 1] in Neighbors(g, p[k..][i]) {
      assert p[(k + i) + 1] in Neighbors(g, p[k + i]);
    }
  }

  /** From any node of a cycle one gets back to any other: here from the head of an edge to its tail. */
  lemma {:induction false} RoundTheCycle(g: Graph, p: seq<Node>, i: nat, j: nat)
    requires ClosesAt(g, p, i) && i <= j < |p| - 1
    ensures Reaches(g, p[j + 1], p[j])
  {
    WalkSuffix(g, p, j + 1);
    WalkPrefix(g, p, j + 1);
    if j == i {
      assert WalkBetween(g, p[j + 1..], p[j + 1], p[j]);
    } else {
      var back := p[i + 1..j + 1];
      assert back == p[..j + 1][i + 1..];
      WalkSuffix(g, p[..j + 1], i + 1);
      var q := p[j + 1..] + back;
      forall k | 0 <= k < |q| - 1 ensures q[k + 1] in Neighbors(g, q[k]) {
        if k < |p[j + 1..]| - 1 {
          assert p[j + 1..][k + 1] in Neighbors(g, p[j + 1..][k]);
        } else if k == |p[j + 1..]| - 1 {
          assert p[i + 1] in Neighbors(g, p[i]);
        } else {
          var m := k - |p[j + 1..]|;
          assert back[m + 1] in Neighbors(g, back[m]);
        }
      }
      assert WalkBetween(g, q, p[j + 1], p[j]);
    }
  }

  ghost predicate StepOf(g: Graph, p: seq<Node>, k: nat) {
    k < |p| - 1 && p[k + 1] in Neighbors(g, p[k])
  }

  lemma {:induction false} OldEdgesOldCycle(g: Graph, p: seq<Node>, i: nat)
    requires i < |p| - 1 && p[i] == p[|p| - 1]
    requires forall k :: i <= k < |p| - 1 ==> StepOf(g, p, k)
    ensures !Acyclic(g)
  {
    var c := p[i..];
    forall k | 0 <= k < |c| - 1 ensures c[k + 1] in Neighbors(g, c[k]) {
      assert StepOf(g, p, i + k);
    }
    assert ClosesAt(g, c, 0);
    assert CycleFrom(g, c[0]);
  }

  /** A cycle through the new edge gives a way from its head back to its tail without it. */
  lemma {:induction false} CycleThroughEdge(g: Graph, from: Node, to: Node, p: seq<Node>, i: nat, j: nat)
    requires ClosesAt(AddEdge(g, from, to), p, i) && i <= j < |p| - 1
    requires p[j] == from && p[j + 1] == to
    ensures Reaches(g, to, from)
  {
    RoundTheCycle(AddEdge(g, from, to), p, i, j);
    var w :| WalkBetween(AddEdge(g, from, to), w, to, from);
    WalkToSource(g, from, to, w, to);
  }

  lemma {:induction false} NewCycleNeedsNewEdge(g: Graph, from: Node, to: Node, p: seq<Node>, i: nat)
    requires Acyclic(g) && ClosesAt(AddEdge(g, from, to), p, i)
    ensures Reaches(g, to, from)
  {
    if forall k :: i <= k < |p| - 1 ==> StepOf(g, p, k) {
      OldEdgesOldCycle(g, p, i);
    } else {
      var j :| i <= j < |p| - 1 && !StepOf(g, p, j);
      assert p[j + 1] in Neighbors(AddEdge(g, from, to), p[j]);
      EdgesAfter(g, from, to, p[j], p[j + 1]);
      CycleThroughEdge(g, from, to, p, i, j);
    }
  }

  /** The guard is exact: it refuses an edge if and only if the edge would close a cycle. */
  lemma {:induction false} GuardIsExact(g: Graph, from: Node, to: Node)
    requires Acyclic(g)
    ensures Acyclic(AddEdge(g, from, to)) <==> !Reaches(g, to, from)
  {
    var g' := AddEdge(g, from, to);
    if Reaches(g, to, from) {
      var p :| WalkBetween(g, p, to, from);
      WalkStays(g, from, to, p);
      WalkPrepend(g', from, p);
      assert ClosesAt(g', [from] + p, 0);
      assert CycleFrom(g', from);
    } else if !Acyclic(g') {
      var a :| CycleFrom(g', a);
      var p, i :| ClosesAt(g', p, i) && p[0] == a;
      NewCycleNeedsNewEdge(g, from, to, p, i);
    }
  }

  /** The graph after offering some edges, each added only if the guard allows it. */
  ghost function Guarded(edges: seq<(Node, Node)>): Graph {
    if edges == [] then map[]
    else
      var g := Guarded(edges[..|edges| - 1]);
      var (from, to) := edges[|edges| - 1];
      if Reaches(g, to, from) then g else AddEdge(g, from, to)
  }

  /** A graph built under the guard stays acyclic, whatever edges are offered. */
  lemma {:induction false} GuardedIsAcyclic(edges: seq<(Node, Node)>)
    ensures Acyclic(Guarded(edges))
  {
    if edges == [] {
      forall p: seq<Node>, i: nat ensures !ClosesAt(map[], p, i) {
        assert |p| > 1 ==> p[0 + 1] !in Neighbors(map[], p[0]);
      }
    } else {
      var g := Guarded(edges[..|edges| - 1]);
      GuardedIsAcyclic(edges[..|edges| - 1]);
      GuardIsExact(g, edges[|edges| - 1].0, edges[|edges| - 1].1);
    }
  }

  // ---------------------------------------------------------------------------------------------
  // The validator

  type Edge = (Node, Node)

  function EdgesFrom(from: Node, targets: seq<Node>): seq<Edge> {
    if targets == [] then [] else [(from, targets[0])] + EdgesFrom(from, targets[1..])
  }

  /** The edges as the validator visits them, for some order of the sources. */
  function EdgeList(g: Graph, order: seq<Node>): seq<Edge> {
    if order == [] then [] else EdgesFrom(order[0], Neighbors(g, order[0])) + EdgeList(g, order[1..])
  }

  /** `validate_no_cycles` with searches of at most `depth` nested calls; `None` if one does not return. */
  function Verdict(g: Graph, es: seq<Edge>, depth: nat): Option<bool> {
    if es == [] then Some(true)
    else if es[0].0 == es[0].1 then Verdict(g, es[1..], depth)
    else
      match Search(g, es[0].1, es[0].0, depth)
      case None => None
      case Some(back) => if back then Some(false) else Verdict(g, es[1..], depth)
  }

  ghost predicate Lists(g: Graph, es: seq<Edge>) {
    forall from, to :: (from, to) in es <==> to in Neighbors(g, from)
  }

  lemma {:induction false} EdgesFromMembers(from: Node, targets: seq<Node>, e: Edge)
    ensures e in EdgesFrom(from, targets) <==> e.0 == from && e.1 in targets
  {
    if targets != [] {
      EdgesFromMembers(from, targets[1..], e);
      assert targets == [targets[0]] + targets[1..];
    }
  }

  lemma {:induction false} EdgeListMembers(g: Graph, order: seq<Node>, e: Edge)
    ensures e in EdgeList(g, order) <==> e.0 in order && e.1 in Neighbors(g, e.0)
  {
    if order != [] {
      EdgesFromMembers(order[0], Neighbors(g, order[0]), e);
      EdgeListMembers(g, order[1..], e);
      assert order == [order[0]] + order[1..];
    }
  }

  /** Any enumeration of the sources visits exactly the edges. */
  lemma {:induction false} EdgeListIsComplete(g: Graph, order: seq<Node>)
    requires forall a :: a in g ==> a in order
    ensures Lists(g, EdgeList(g, order))
  {
    forall from, to ensures (from, to) in EdgeList(g, order) <==> to in Neighbors(g, from) {
      EdgeListMembers(g, order, (from, to));
    }
  }

  /** The validator returns, and accepts. */
  ghost predicate Accepted(g: Graph, es: seq<Edge>) {
    exists depth :: Verdict(g, es, depth) == Some(true)
  }

  /** An edge that the validator passes over: a self-loop, or one that does not lead into a cycle. */
  ghost predicate Passed(g: Graph, e: Edge) {
    e.0 == e.1 || !CycleFrom(g, e.1)
  }

  lemma {:induction false} EdgeClosesCycle(g: Graph, from: Node, to: Node)
    requires to in Neighbors(g, from) && Reaches(g, to, from)
    ensures CycleFrom(g, from) && CycleFrom(g, to)
  {
    var p :| WalkBetween(g, p, to, from);
    WalkPrepend(g, from, p);
    assert ClosesAt(g, [from] + p, 0);
    var q := p + [to];
    forall i | 0 <= i < |q| - 1 ensures q[i + 1] in Neighbors(g, q[i]) {
      assert i < |p| - 1 ==> p[i + 1] in Neighbors(g, p[i]);
    }
    assert ClosesAt(g, q, 0);
  }

  lemma {:induction false} AcceptedPasses(g: Graph, es: seq<Edge>, depth: nat, e: Edge)
    requires Verdict(g, es, depth) == Some(true) && e in es
    ensures Passed(g, e)
  {
    if e == es[0] {
      if e.0 != e.1 {
        SearchIsSound(g, e.1, e.0, depth);
        FailingSearchEnds(g, e.1, e.0);
      }
    } else {
      AcceptedPasses(g, es[1..], depth, e);
    }
  }

  lemma {:induction false} PassedIsAccepted(g: Graph, es: seq<Edge>)
    requires forall e :: e in es ==> e.1 in Neighbors(g, e.0) && Passed(g, e)
    ensures Verdict(g, es, |g| + 1) == Some(true)
  {
    if es != [] {
      var e := es[0];
      if e.0 != e.1 {
        AcyclicSearch(g, e.1, e.0);
        if Reaches(g, e.1, e.0) {
          EdgeClosesCycle(g, e.0, e.1);
        }
      }
      PassedIsAccepted(g, es[1..]);
    }
  }

  /**
   * When the validator accepts: whatever order it visits the edges in, exactly when no edge between
   * two different nodes leads into a cycle. On every other graph it rejects or does not return.
   */
  lemma {:induction false} AcceptedExactly(g: Graph, es: seq<Edge>)
    requires Lists(g, es)
    ensures Accepted(g, es) <==> forall from, to :: to in Neighbors(g, from) ==> Passed(g, (from, to))
  {
    if Accepted(g, es) {
      var depth :| Verdict(g, es, depth) == Some(true);
      forall from, to | to in Neighbors(g, from) ensures Passed(g, (from, to)) {
        AcceptedPasses(g, es, depth, (from, to));
      }
    }
    if forall from, to :: to in Neighbors(g, from) ==> Passed(g, (from, to)) {
      forall e | e in es ensures e.1 in Neighbors(g, e.0) && Passed(g, e) {
        assert (e.0, e.1) in es;
      }
      PassedIsAccepted(g, es);
    }
  }

  /** A rejection is never wrong: some edge closes a cycle. */
  lemma {:induction false} RejectedHasCycle(g: Graph, es: seq<Edge>, depth: nat)
    requires forall e :: e in es ==> e.1 in Neighbors(g, e.0)
    requires Verdict(g, es, depth) == Some(false)
    ensures !Acyclic(g) && exists e :: e in es && !Passed(g, e)
  {
    var e := es[0];
    if e.0 != e.1 && Search(g, e.1, e.0, depth).value {
      SearchIsSound(g, e.1, e.0, depth);
      EdgeClosesCycle(g, e.0, e.1);
      assert e in es && !Passed(g, e);
    } else {
      RejectedHasCycle(g, es[1..], depth);
      var f :| f in es[1..] && !Passed(g, f);
      assert f in es;
    }
  }

  ghost predicate NoSelfLoop(g: Graph) {
    forall a :: a !in Neighbors(g, a)
  }

  lemma {:induction false} CycleHasEdge(g: Graph, p: seq<Node>, i: nat)
    requires ClosesAt(g, p, i)
    ensures p[i + 1] in Neighbors(g, p[i]) && (p[i] == p[i + 1] || CycleFrom(g, p[i + 1]))
  {
    WalkSuffix(g, p, i);
    var loop := p[i..];
    WalkTail(g, loop);
    assert loop[1] == p[i + 1] && loop[1] in Neighbors(g, loop[0]);
    assert WalkBetween(g, loop[1..], p[i + 1], p[i]);
    EdgeClosesCycle(g, p[i], p[i + 1]);
  }

  /** An accepted graph has no cycle but self-loops: without those, acceptance means acyclic. */
  lemma {:induction false} ValidatorMissesOnlySelfLoops(g: Graph, es: seq<Edge>)
    requires Lists(g, es)
    ensures Accepted(g, es) && NoSelfLoop(g) <==> Acyclic(g)
  {
    AcceptedExactly(g, es);
    if Acyclic(g) {
      forall a ensures a !in Neighbors(g, a) {
        if a in Neighbors(g, a) {
          ReachesUnfolds(g, a, a);
          EdgeClosesCycle(g, a, a);
        }
      }
    } else if NoSelfLoop(g) {
      var a, p, i :| ClosesAt(g, p, i) && p[0] == a;
      CycleHasEdge(g, p, i);
      assert !Passed(g, (p[i], p[i + 1]));
    }
  }

  /** A graph grown under the guard passes the validator, in any order. */
  lemma {:induction false} GuardedIsAccepted(edges: seq<(Node, Node)>, order: seq<Node>)
    requires forall a :: a in Guarded(edges) ==> a in order
    ensures var g := Guarded(edges); Verdict(g, EdgeList(g, order), |g| + 1) == Some(true)
  {
    var g := Guarded(edges);
    GuardedIsAcyclic(edges);
    EdgeListIsComplete(g, order);
    var es := EdgeList(g, order);
    forall e | e in es ensures e.1 in Neighbors(g, e.0) && Passed(g, e) {
      assert (e.0, e.1) in es;
    }
    PassedIsAccepted(g, es);
  }

  /** A self-loop alone is accepted, although it is a cycle. */
  lemma {:induction false} SelfLoopIsAccepted()
    ensures var g: Graph := map["a" := ["a"]];
            Lists(g, [("a", "a")]) && Verdict(g, [("a", "a")], 0) == Some(true) && !Acyclic(g)
  {
    var g: Graph := map["a" := ["a"]];
    assert g["a"][0] == "a";
    assert ClosesAt(g, ["a", "a"], 0);
    assert CycleFrom(g, "a");
  }

  /** From these nodes no walk leaves the set. */
  lemma {:induction false} StaysInside(g: Graph, inside: set<Node>, p: seq<Node>)
    requires IsWalk(g, p) && p[0] in inside
    requires forall a, n :: a in inside && n in Neighbors(g, a) ==> n in inside
    ensures p[|p| - 1] in inside
    decreases |p|
  {
    if |p| > 1 {
      WalkTail(g, p);
      StaysInside(g, inside, p[1..]);
    }
  }

  /** Without any self-loop the validator can fail to return: it then never answers for this order. */
  lemma {:induction false} ValidatorMayNotReturn(depth: nat)
    ensures var g: Graph := map["a" := ["b"], "b" := ["c"], "c" := ["b"]];
            && NoSelfLoop(g) && Lists(g, EdgeList(g, ["a", "b", "c"]))
            && Verdict(g, EdgeList(g, ["a", "b", "c"]), depth).None?
  {
    var g: Graph := map["a" := ["b"], "b" := ["c"], "c" := ["b"]];
    EdgeListIsComplete(g, ["a", "b", "c"]);
    assert EdgesFrom("a", g["a"]) == [("a", "b")];
    assert EdgeList(g, ["a", "b", "c"])[0] == ("a", "b");
    forall p | WalkBetween(g, p, "b", "a") ensures false {
      StaysInside(g, {"b", "c"}, p);
    }
    assert IsWalk(g, ["b", "c", "b"]) && ClosesAt(g, ["b", "c", "b"], 0);
    FailingSearchEnds(g, "b", "a");
    assert Search(g, "b", "a", depth).None?;
  }

  // ---------------------------------------------------------------------------------------------
  // The graph object

  /**
   * `can_reach` as it recurses: through the neighbors in order, without remembering any. Whenever
   * the recursion ends, at whatever depth, the answer is the truth.
   */
  method CanReach(g: Graph, from: Node, to: Node, ghost depth: nat) returns (r: bool)
    requires Search(g, from, to, depth).Some?
    ensures r == Search(g, from, to, depth).value
    ensures r <==> Reaches(g, from, to)
    decreases depth
  {
    SearchIsSound(g, from, to, depth);
    if from == to {
      return true;
    }
    var rest := Neighbors(g, from);
    while rest != []
      invariant SearchAny(g, rest, to, depth - 1) == Search(g, from, to, depth)
      decreases |rest|
    {
      var found := CanReach(g, rest[0], to, depth - 1);
      if found {
        return true;
      }
      rest := rest[1..];
    }
    return false;
  }

  class Dependencies {
    var edges: Graph

    constructor ()
      ensures edges == map[] && Acyclic(edges)
    {
      edges := map[];
      GuardedIsAcyclic([]);
    }

    method Add(from: Node, to: Node)
      modifies this
      ensures edges == AddEdge(old(edges), from, to)
    {
      var targets := if from in edges then edges[from] else [];
      edges := edges[from := targets + [to]];
    }

    /** Wherever the search returns, it says whether the edge would lie on a cycle. */
    method WouldCreateCycle(from: Node, to: Node, ghost depth: nat) returns (r: bool)
      requires Search(edges, to, from, depth).Some?
      ensures r <==> Reaches(edges, to, from)
      ensures Acyclic(edges) ==> (r <==> !Acyclic(AddEdge(edges, from, to)))
    {
      if Acyclic(edges) {
        GuardIsExact(edges, from, to);
      }
      r := CanReach(edges, to, from, depth);
    }

    /** Add an edge unless it would close a cycle. */
    method AddGuarded(from: Node, to: Node) returns (added: bool)
      requires Acyclic(edges)
      modifies this
      ensures Acyclic(edges)
      ensures added <==> Acyclic(AddEdge(old(edges), from, to))
      ensures edges == if added then AddEdge(old(edges), from, to) else old(edges)
    {
      AcyclicSearch(edges, to, from);
      var cycle := WouldCreateCycle(from, to, |edges| + 1);
      if !cycle {
        Add(from, to);
      }
      added := !cycle;
    }

    /**
     * `validate_no_cycles`, for any order of the sources: wherever its searches end, it accepts
     * exactly the graphs in which no edge between two different nodes leads into a cycle.
     */
    method ValidateNoCycles(order: seq<Node>, ghost depth: nat) returns (ok: bool)
      requires forall a :: a in edges ==> a in order
      requires Verdict(edges, EdgeList(edges, order), depth).Some?
      ensures ok == Verdict(edges, EdgeList(edges, order), depth).value
      ensures ok <==> forall from, to :: to in Neighbors(edges, from) ==> Passed(edges, (from, to))
    {
      ValidatorAnswer(edges, order, depth);
      ghost var all := Verdict(edges, EdgeList(edges, order), depth);
      var sources := order;
      while sources != []
        invariant Verdict(edges, EdgeList(edges, sources), depth) == all
        decreases |sources|
      {
        var from := sources[0];
        var targets := if from in edges then edges[from] else [];
        ghost var later := EdgeList(edges, sources[1..]);
        while targets != []
          invariant Verdict(edges, EdgesFrom(from, targets) + later, depth) == all
          decreases |targets|
        {
          var to := targets[0];
          FirstEdge(from, targets, later);
          if from != to {
            var back := CanReach(edges, to, from, depth);
            if back {
              return false;
            }
          }
          targets := targets[1..];
        }
        assert EdgesFrom(from, []) + later == later;
        sources := sources[1..];
      }
      return true;
    }
  }

  lemma {:induction false} FirstEdge(from: Node, targets: seq<Node>, later: seq<Edge>)
    requires targets != []
    ensures var es := EdgesFrom(from, targets) + later;
            es[0] == (from, targets[0]) && es[1..] == EdgesFrom(from, targets[1..]) + later
  {
  }

  lemma {:induction false} ValidatorAnswer(g: Graph, order: seq<Node>, depth: nat)
    requires (forall a :: a in g ==> a in order) && Verdict(g, EdgeList(g, order), depth).Some?
    ensures Verdict(g, EdgeList(g, order), depth).value
            <==> forall from, to :: to in Neighbors(g, from) ==> Passed(g, (from, to))
  {
    var es := EdgeList(g, order);
    EdgeListIsComplete(g, order);
    AcceptedExactly(g, es);
    if !Verdict(g, es, depth).value {
      forall e | e in es ensures e.1 in Neighbors(g, e.0) {
        assert (e.0, e.1) in es;
      }
      RejectedHasCycle(g, es, depth);
      var e :| e in es && !Passed(g, e);
      assert !Passed(g, (e.0, e.1));
    }
  }
}
