/** The worklist that finds the rows a program can reach from its first row. */
module Reachability {

  /** succ[k] lists the successors of row k; entries at or beyond |succ| leave the program. */
  type Graph = seq<seq<nat>>

  ghost predicate IsPath(succ: Graph, p: seq<nat>) {
    && p != [] && p[0] == 0
    && (forall i :: 0 <= i < |p| ==> p[i] < |succ|)
    && forall i :: 0 <= i < |p| - 1 ==> p[i + 1] in succ[p[i]]
  }

  ghost predicate Reachable(succ: Graph, k: nat) {
    exists p :: IsPath(succ, p) && p[|p| - 1] == k
  }

  lemma ReachableStart(succ: Graph)
    requires succ != []
    ensures Reachable(succ, 0)
  {
    assert IsPath(succ, [0]);
  }

  lemma ReachableStep(succ: Graph, k: nat, j: nat)
    requires Reachable(succ, k) && k < |succ| && j in succ[k] && j < |succ|
    ensures Reachable(succ, j)
  {
    var p :| IsPath(succ, p) && p[|p| - 1] == k;
    assert IsPath(succ, p + [j]);
  }

  /** A set that holds row 0 and is closed under in-range successors holds every reachable row. */
  lemma ClosedHoldsReachable(succ: Graph, seen: set<nat>)
    requires 0 in seen
    requires forall k, j :: k in seen && k < |succ| && j in succ[k] && j < |succ| ==> j in seen
    ensures forall k :: Reachable(succ, k) ==> k in seen
  {
    forall k | Reachable(succ, k)
      ensures k in seen
    {
      var p :| IsPath(succ, p) && p[|p| - 1] == k;
      PathStaysInside(succ, seen, p);
    }
  }

  lemma {:induction false} PathStaysInside(succ: Graph, seen: set<nat>, p: seq<nat>)
    requires IsPath(succ, p) && 0 in seen
    requires forall k, j :: k in seen && k < |succ| && j in succ[k] && j < |succ| ==> j in seen
    ensures p[|p| - 1] in seen
    decreases |p|
  {
    if |p| > 1 {
      var q := p[..|p| - 1];
      assert IsPath(succ, q);
      PathStaysInside(succ, seen, q);
      assert p[|p| - 1] in succ[q[|q| - 1]];
    }
  }

  ghost function Below(n: nat): (s: set<nat>)
    ensures forall k: nat :: k in s <==> k < n
  {
    if n == 0 then {} else Below(n - 1) + {n - 1}
  }

  method Worklist(succ: Graph) returns (seen: set<nat>)
    requires succ != []
    ensures forall k: nat :: k in seen <==> Reachable(succ, k)
    ensures forall k :: k in seen ==> k < |succ|
  {
    seen := {};
    var stack: seq<nat> := [0];
    ghost var rows := Below(|succ|);
    ReachableStart(succ);
    while stack != []
      invariant seen <= rows
      invariant forall k :: k in seen ==> Reachable(succ, k)
      invariant forall k :: k in stack && k < |succ| ==> Reachable(succ, k)
      invariant 0 in seen || 0 in stack
      invariant forall k, j :: k in seen && j in succ[k] && j < |succ| ==> j in seen || j in stack
      decreases rows - seen, |stack|
    {
      var k := stack[|stack| - 1];
      ghost var before := stack;
      stack := stack[..|stack| - 1];
      assert before == stack + [k];
      if k in seen || k >= |succ| {
        continue;
      }
      forall j | j in succ[k] && j < |succ|
        ensures Reachable(succ, j)
      {
        ReachableStep(succ, k, j);
      }
      ghost var was := seen;
      seen := seen + {k};
      assert k in rows - was && k !in rows - seen;
      assert rows - seen < rows - was;
      stack := stack + succ[k];
    }
    ClosedHoldsReachable(succ, seen);
  }

  // ----- Cycles -----

  /** A path that may start at any row. */
  ghost predicate IsWalk(succ: Graph, p: seq<nat>) {
    && p != []
    && (forall i :: 0 <= i < |p| ==> p[i] < |succ|)
    && forall i :: 0 <= i < |p| - 1 ==> p[i + 1] in succ[p[i]]
  }

  ghost predicate IsCycle(succ: Graph, p: seq<nat>) {
    IsWalk(succ, p) && |p| >= 2 && p[0] == p[|p| - 1]
  }

  ghost predicate Acyclic(succ: Graph) {
    forall p :: !IsCycle(succ, p)
  }

  predicate NoRepeats(p: seq<nat>) {
    forall i, j :: 0 <= i < j < |p| ==> p[i] != p[j]
  }

  lemma {:induction false} Pigeonhole(p: seq<nat>, n: nat)
    requires NoRepeats(p) && forall i :: 0 <= i < |p| ==> p[i] < n
    ensures |p| <= n
    decreases n
  {
    if p == [] {
      return;
    }
    assert p[0] < n;
    if k :| 0 <= k < |p| && p[k] == n - 1 {
      Pigeonhole(p[..k] + p[k + 1..], n - 1);
    } else {
      Pigeonhole(p, n - 1);
    }
  }

  lemma WalkPart(succ: Graph, p: seq<nat>, i: nat, j: nat)
    requires IsWalk(succ, p) && i < j <= |p|
    ensures IsWalk(succ, p[i..j])
  {
    var q := p[i..j];
    forall k | 0 <= k < |q| - 1
      ensures q[k + 1] in succ[q[k]]
    {
      var at := i + k;
      assert q[k] == p[at] && q[k + 1] == p[at + 1];
    }
  }

  lemma RepeatIsCycle(succ: Graph, p: seq<nat>, i: nat, j: nat)
    requires IsWalk(succ, p) && i < j < |p| && p[i] == p[j]
    ensures IsCycle(succ, p[i..j + 1])
  {
    WalkPart(succ, p, i, j + 1);
  }

  /** Without a cycle no walk visits more rows than there are. */
  lemma AcyclicWalksAreShort(succ: Graph, p: seq<nat>)
    requires Acyclic(succ) && IsWalk(succ, p)
    ensures |p| <= |succ|
  {
    if i, j :| 0 <= i < j < |p| && p[i] == p[j] {
      RepeatIsCycle(succ, p, i, j);
    } else {
      Pigeonhole(p, |succ|);
    }
  }

  /** A walk that ends on a cycle can be continued to any length. */
  lemma {:induction false} CyclePathsAreLong(succ: Graph, c: seq<nat>, p: seq<nat>, i: nat, n: nat)
    returns (q: seq<nat>)
    requires IsCycle(succ, c) && IsPath(succ, p) && i < |c| - 1 && p[|p| - 1] == c[i] && n >= |p|
    ensures IsPath(succ, q) && |q| == n
    decreases n - |p|
  {
    if n == |p| {
      q := p;
    } else {
      assert c[i + 1] in succ[c[i]];
      assert IsPath(succ, p + [c[i + 1]]);
      q := CyclePathsAreLong(succ, c, p + [c[i + 1]], if i + 1 == |c| - 1 then 0 else i + 1, n);
    }
  }

  ghost predicate HasPath(succ: Graph, n: nat) {
    exists p :: IsPath(succ, p) && |p| == n
  }

  ghost predicate PathsBelow(succ: Graph, n: nat) {
    forall p :: IsPath(succ, p) ==> |p| < n
  }

  /** A cycle that can be reached has paths of every length leading into and around it. */
  lemma CycleHasPathsOfEveryLength(succ: Graph, c: seq<nat>, n: nat)
    requires IsCycle(succ, c) && Reachable(succ, c[0]) && n > 0
    ensures HasPath(succ, n)
  {
    var p :| IsPath(succ, p) && p[|p| - 1] == c[0];
    if n <= |p| {
      assert IsPath(succ, p[..n]);
    } else {
      var q := CyclePathsAreLong(succ, c, p, 0, n);
    }
  }

  /** Where every row can be reached: no path is longer than the number of rows exactly when there is no cycle. */
  lemma PathsAreShortIffAcyclic(succ: Graph)
    requires forall k :: 0 <= k < |succ| ==> Reachable(succ, k)
    ensures PathsBelow(succ, |succ| + 1) <==> Acyclic(succ)
    ensures !Acyclic(succ) ==> forall n: nat :: n > 0 ==> HasPath(succ, n)
  {
    if Acyclic(succ) {
      forall p | IsPath(succ, p)
        ensures |p| < |succ| + 1
      {
        AcyclicWalksAreShort(succ, p);
      }
    }
    if c :| IsCycle(succ, c) {
      assert c[0] < |succ|;
      forall n: nat | n > 0
        ensures HasPath(succ, n)
      {
        CycleHasPathsOfEveryLength(succ, c, n);
      }
      assert HasPath(succ, |succ| + 1);
    }
  }

  /** Every edge goes up a ranking of the rows. */
  ghost predicate Ranked(succ: Graph, rank: nat -> nat) {
    forall k, j :: 0 <= k < |succ| && j in succ[k] && j < |succ| ==> rank(k) < rank(j)
  }

  lemma {:induction false} RankRises(succ: Graph, rank: nat -> nat, p: seq<nat>)
    requires Ranked(succ, rank) && IsWalk(succ, p) && |p| >= 2
    ensures rank(p[0]) < rank(p[|p| - 1])
    decreases |p|
  {
    assert p[1] in succ[p[0]];
    if |p| > 2 {
      WalkPart(succ, p, 1, |p|);
      RankRises(succ, rank, p[1..]);
    }
  }

  lemma RankedIsAcyclic(succ: Graph, rank: nat -> nat)
    requires Ranked(succ, rank)
    ensures Acyclic(succ)
  {
    forall p | IsCycle(succ, p)
      ensures false
    {
      RankRises(succ, rank, p);
    }
  }
}
