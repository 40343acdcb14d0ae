/** Layering a dependency graph into execution steps (operator/v1/dag/dag.go). */
module OperandDag {
  import opened Collections
  import opened Operands
  import opened Graphs

  type Steps = map<Name, nat>

  // ---------- what one pass computes ----------

  ghost predicate Known(g: Graph, names: seq<Name>) {
    forall i :: 0 <= i < |names| ==> names[i] in g.values
  }

  /** The successors of the current roots, each listed once. */
  function NextRoots(g: Graph, current: seq<Name>): seq<Name>
    requires WellFormed(g) && Known(g, current)
  {
    if current == [] then [] else
      AddMissing(NextRoots(g, current[..|current| - 1]), g.succs[current[|current| - 1]])
  }

  predicate Ready(g: Graph, order: Steps, c: Name)
    requires WellFormed(g) && c in g.values
  {
    c !in order && forall p :: p in g.preds[c] ==> p in order
  }

  /** The pass over the current roots: each root is tested against the map the pass is writing. */
  function Place(g: Graph, step: nat, current: seq<Name>, order: Steps): Steps
    requires WellFormed(g) && Known(g, current)
  {
    if current == [] then order else
      var o := Place(g, step, current[..|current| - 1], order);
      var c := current[|current| - 1];
      if Ready(g, o, c) then o[c := step] else o
  }

  /** The list of roots at step k. */
  function FrontierList(g: Graph, k: nat): (roots: seq<Name>)
    requires WellFormed(g)
    ensures Known(g, roots)
  {
    if k == 0 then
      assert forall i :: 0 <= i < |g.sources| ==> g.sources[i] in g.sources;
      g.sources
    else
      var roots := FrontierList(g, k - 1);
      NextRootsSpec(g, roots);
      NextRoots(g, roots)
  }

  /** The map as it stands at step `step` when the roots before position i have been looked at. */
  function Before(g: Graph, step: nat, i: nat): Steps
    requires WellFormed(g) && i <= |FrontierList(g, step)|
    decreases step, i
  {
    if i > 0 then
      var o := Before(g, step, i - 1);
      var c := FrontierList(g, step)[i - 1];
      if Ready(g, o, c) then o[c := step] else o
    else if step > 0 then Before(g, step - 1, |FrontierList(g, step - 1)|)
    else map[]
  }

  /** The order after k passes. */
  function Solved(g: Graph, k: nat): Steps
    requires WellFormed(g)
  {
    Before(g, k, 0)
  }

  lemma {:induction false} PlaceIsBefore(g: Graph, step: nat, i: nat)
    requires WellFormed(g) && i <= |FrontierList(g, step)|
    ensures Place(g, step, FrontierList(g, step)[..i], Solved(g, step)) == Before(g, step, i)
    decreases i
  {
    var f := FrontierList(g, step);
    if i > 0 {
      PlaceIsBefore(g, step, i - 1);
      assert f[..i][..i - 1] == f[..i - 1];
    }
  }

  // ---------- the loops ----------

  method AddSuccessorsToNewRoots(g: Graph, v: Name, roots: seq<Name>) returns (newRoots: seq<Name>)
    requires WellFormed(g) && v in g.values
    ensures newRoots == AddMissing(roots, g.succs[v])
  {
    var ss := g.succs[v];
    newRoots := roots;
    for i := 0 to |ss|
      invariant newRoots == AddMissing(roots, ss[..i])
    {
      assert ss[..i + 1][..i] == ss[..i];
      var exists_ := VertexExists(newRoots, ss[i]);
      if !exists_ {
        newRoots := newRoots + [ss[i]];
      }
    }
    assert ss[..|ss|] == ss;
  }

  method VertexExists(vs: seq<Name>, target: Name) returns (found: bool)
    ensures found <==> target in vs
  {
    for i := 0 to |vs|
      invariant target !in vs[..i]
    {
      if vs[i] == target {
        return true;
      }
    }
    return false;
  }

  method SolveStep(g: Graph, step: nat, current: seq<Name>, order: Steps) returns (newRoots: seq<Name>, newOrder: Steps)
    requires WellFormed(g) && Known(g, current)
    ensures newRoots == NextRoots(g, current)
    ensures newOrder == Place(g, step, current, order)
  {
    newRoots, newOrder := [], order;
    for i := 0 to |current|
      invariant newRoots == NextRoots(g, current[..i])
      invariant newOrder == Place(g, step, current[..i], order)
    {
      var c := current[i];
      assert current[..i + 1][..i] == current[..i];
      if c !in newOrder {
        var pp := g.preds[c];
        if |pp| == 0 {
          newOrder := newOrder[c := step];
          newRoots := AddSuccessorsToNewRoots(g, c, newRoots);
          continue;
        }
        var satisfied := true;
        for j := 0 to |pp|
          invariant satisfied <==> forall p :: p in pp[..j] ==> p in newOrder
        {
          assert pp[..j + 1] == pp[..j] + [pp[j]];
          if pp[j] !in newOrder {
            satisfied := false;
          }
        }
        assert pp[..|pp|] == pp;
        if satisfied {
          newOrder := newOrder[c := step];
        }
      }
      newRoots := AddSuccessorsToNewRoots(g, c, newRoots);
    }
    assert current[..|current|] == current;
  }

  /** The loop ends after the first step whose list of roots is empty, and it must end. */
  method Solve(g: Graph) returns (order: Steps, steps: nat)
    requires WellFormed(g)
    requires exists n: nat :: WalksEndBefore(g, n)
    ensures order == Solved(g, steps)
    ensures WalksEndBefore(g, steps)
    ensures forall k :: 0 <= k < steps ==> FrontierList(g, k) != []
  {
    ghost var n: nat :| WalksEndBefore(g, n);
    order, steps := map[], 0;
    var newRoots := g.sources;
    while |newRoots| > 0
      invariant steps <= n
      invariant newRoots == FrontierList(g, steps) && order == Solved(g, steps)
      invariant forall k :: 0 <= k < steps ==> FrontierList(g, k) != []
      decreases n - steps
    {
      StepsRemain(g, steps, n);
      PassIsNext(g, steps);
      newRoots, order := SolveStep(g, steps, newRoots, order);
      steps := steps + 1;
    }
    FrontierEmptyIff(g, steps);
  }

  lemma PassIsNext(g: Graph, k: nat)
    requires WellFormed(g)
    ensures NextRoots(g, FrontierList(g, k)) == FrontierList(g, k + 1)
    ensures Place(g, k, FrontierList(g, k), Solved(g, k)) == Solved(g, k + 1)
  {
    var f := FrontierList(g, k);
    assert f[..|f|] == f;
    PlaceIsBefore(g, k, |f|);
  }

  lemma StepsRemain(g: Graph, k: nat, n: nat)
    requires WellFormed(g) && WalksEndBefore(g, n) && FrontierList(g, k) != [] && k <= n
    ensures k < n
  {
    FrontierEmptyIff(g, k);
  }

  // ---------- frontiers are walks ----------

  lemma {:induction false} NextRootsSpec(g: Graph, current: seq<Name>)
    requires WellFormed(g) && Known(g, current)
    ensures NoDup(NextRoots(g, current)) && Known(g, NextRoots(g, current))
    ensures forall v :: v in NextRoots(g, current) <==>
                        exists c :: c in current && v in g.succs[c]
  {
    if current != [] {
      var init, last := current[..|current| - 1], current[|current| - 1];
      NextRootsSpec(g, init);
      AddMissingSpec(NextRoots(g, init), g.succs[last]);
      assert current == init + [last];
      var r := NextRoots(g, current);
      forall i | 0 <= i < |r| ensures r[i] in g.values {
        assert r[i] in NextRoots(g, init) || r[i] in g.succs[last];
      }
    }
  }

  /** The roots at step k are, each once, the operands that end a walk of k edges from a source. */
  lemma {:induction false} FrontierIsWalks(g: Graph, k: nat, v: Name)
    requires WellFormed(g)
    ensures NoDup(FrontierList(g, k))
    ensures v in FrontierList(g, k) <==> WalkTo(g, v, k)
    decreases k
  {
    if k > 0 {
      var roots := FrontierList(g, k - 1);
      NextRootsSpec(g, roots);
      forall p ensures p in roots <==> WalkTo(g, p, k - 1) {
        FrontierIsWalks(g, k - 1, p);
      }
      if v in g.values {
        assert forall p :: p in g.values ==> (v in g.succs[p] <==> p in g.preds[v]);
      }
    }
  }

  // ---------- one pass, position by position ----------

  lemma FrontierEmptyIff(g: Graph, k: nat)
    requires WellFormed(g)
    ensures FrontierList(g, k) == [] <==> WalksEndBefore(g, k)
  {
    forall v ensures v in FrontierList(g, k) <==> WalkTo(g, v, k) {
      FrontierIsWalks(g, k, v);
    }
    if FrontierList(g, k) != [] {
      assert FrontierList(g, k)[0] in FrontierList(g, k);
    }
  }

  /** The loop comes to an empty list of roots exactly when no walk from a source repeats an operand. On
      an acyclic graph it does so after no more passes than there are operands. */
  lemma SolveEndsIff(g: Graph)
    requires WellFormed(g)
    ensures (exists k: nat :: FrontierList(g, k) == []) <==> (forall c :: IsWalk(g, c) ==> NoDup(c))
    ensures Acyclic(g) ==> FrontierList(g, |g.values|) == []
  {
    WalksBounded(g);
    if k: nat :| FrontierList(g, k) == [] {
      FrontierEmptyIff(g, k);
    }
    if n: nat :| WalksEndBefore(g, n) {
      FrontierEmptyIff(g, n);
    }
    if Acyclic(g) {
      AcyclicWalksEnd(g);
      FrontierEmptyIff(g, |g.values|);
    }
  }

  ghost predicate Extends(a: Steps, b: Steps) {
    forall v :: v in a ==> v in b && b[v] == a[v]
  }

  lemma {:induction false} BeforeGrows(g: Graph, step: nat, i: nat, j: nat)
    requires WellFormed(g) && i <= j <= |FrontierList(g, step)|
    ensures Extends(Before(g, step, i), Before(g, step, j))
    decreases j
  {
    if i < j {
      BeforeGrows(g, step, i, j - 1);
    }
  }

  lemma {:induction false} SolvedGrows(g: Graph, k: nat, m: nat)
    requires WellFormed(g) && k <= m
    ensures Extends(Solved(g, k), Solved(g, m))
    decreases m
  {
    if k < m {
      SolvedGrows(g, k, m - 1);
      BeforeGrows(g, m - 1, 0, |FrontierList(g, m - 1)|);
    }
  }

  /** Where a name that is in the map before position i was placed: at an earlier step, or at an
      earlier position of this one. */
  lemma {:induction false} BeforeOrigin(g: Graph, step: nat, i: nat, v: Name)
    requires WellFormed(g) && i <= |FrontierList(g, step)|
    requires v in Before(g, step, i)
    ensures if v in Solved(g, step) then Before(g, step, i)[v] == Solved(g, step)[v]
            else Before(g, step, i)[v] == step &&
                 exists j :: 0 <= j < i && FrontierList(g, step)[j] == v && Ready(g, Before(g, step, j), v)
    decreases i
  {
    if i > 0 {
      if v in Before(g, step, i - 1) {
        BeforeOrigin(g, step, i - 1, v);
      }
      BeforeGrows(g, step, 0, i - 1);
    }
  }

  /** A placed name was placed once, at some position of its step, when all it requires was placed. */
  lemma {:induction false} Placement(g: Graph, k: nat, v: Name) returns (i: nat)
    requires WellFormed(g) && v in Solved(g, k)
    ensures var s := Solved(g, k)[v];
            && s < k
            && i < |FrontierList(g, s)| && FrontierList(g, s)[i] == v
            && Ready(g, Before(g, s, i), v)
    decreases k
  {
    BeforeOrigin(g, k - 1, |FrontierList(g, k - 1)|, v);
    if v in Solved(g, k - 1) {
      i := Placement(g, k - 1, v);
    } else {
      i :| 0 <= i < |FrontierList(g, k - 1)| && FrontierList(g, k - 1)[i] == v && Ready(g, Before(g, k - 1, i), v);
    }
  }

  /** When the pass comes by a name whose requirements are all placed, the name is placed. */
  lemma PassPlaces(g: Graph, s: nat, i: nat)
    requires WellFormed(g) && i < |FrontierList(g, s)|
    requires var v := FrontierList(g, s)[i]; forall p :: p in g.preds[v] ==> p in Before(g, s, i)
    ensures FrontierList(g, s)[i] in Solved(g, s + 1)
  {
    BeforeGrows(g, s, i + 1, |FrontierList(g, s)|);
  }

  // ---------- bounds on the step of an operand ----------

  /** A requirement never comes at a later step, and at the same step only if it is listed earlier. */
  lemma RequirementNotLater(g: Graph, k: nat, dep: Name, op: Name)
    requires WellFormed(g) && op in g.values && op in Solved(g, k) && dep in g.preds[op]
    ensures dep in Solved(g, k)
    ensures Solved(g, k)[dep] <= Solved(g, k)[op]
    ensures Solved(g, k)[dep] == Solved(g, k)[op] ==> Precedes(FrontierList(g, Solved(g, k)[op]), dep, op)
  {
    var i := Placement(g, k, op);
    var s := Solved(g, k)[op];
    BeforeOrigin(g, s, i, dep);
    BeforeGrows(g, s, i, |FrontierList(g, s)|);
    SolvedGrows(g, s + 1, k);
    SolvedGrows(g, s, k);
    if dep in Solved(g, s) {
      var _ := Placement(g, s, dep);
    }
  }

  lemma {:induction false} PlacedIsGrounded(g: Graph, k: nat, i: nat, v: Name)
    requires WellFormed(g) && i <= |FrontierList(g, k)| && v in Before(g, k, i)
    ensures Grounded(g, v)
    decreases k, i
  {
    if i > 0 {
      if v in Before(g, k, i - 1) {
        PlacedIsGrounded(g, k, i - 1, v);
      } else {
        forall p | p in g.preds[v] ensures Grounded(g, p) {
          PlacedIsGrounded(g, k, i - 1, p);
        }
        GroundedByPreds(g, v);
      }
    } else if k > 0 {
      PlacedIsGrounded(g, k - 1, |FrontierList(g, k - 1)|, v);
    }
  }

  /** Pass k places at the latest what has a longest chain of k edges. */
  lemma {:induction false} PlacedByLevel(g: Graph, k: nat, v: Name)
    requires WellFormed(g) && Grounded(g, v) && Level(g, v) < k
    ensures v in Solved(g, k) && Solved(g, k)[v] <= Level(g, v)
    decreases Level(g, v)
  {
    var l := Level(g, v);
    LevelWalk(g, v);
    FrontierIsWalks(g, l, v);
    var i :| 0 <= i < |FrontierList(g, l)| && FrontierList(g, l)[i] == v;
    forall p | p in g.preds[v] ensures p in Before(g, l, i) {
      GroundedPred(g, v, p);
      PlacedByLevel(g, l, p);
      BeforeGrows(g, l, 0, i);
    }
    PassPlaces(g, l, i);
    PlacedOnce(g, l + 1, k, v);
  }

  /** A name keeps the step it was given. */
  lemma PlacedOnce(g: Graph, k: nat, m: nat, v: Name)
    requires WellFormed(g) && v in Solved(g, k) && k <= m
    ensures v in Solved(g, m) && Solved(g, m)[v] == Solved(g, k)[v] < k
  {
    SolvedGrows(g, k, m);
    var _ := Placement(g, k, v);
  }

  /** What the finished solution holds: exactly the operands with no cycle on or before them. */
  lemma SolutionKeys(g: Graph, steps: nat, v: Name)
    requires WellFormed(g) && WalksEndBefore(g, steps)
    ensures v in Solved(g, steps) <==> Grounded(g, v)
    ensures v in Solved(g, steps) ==> Solved(g, steps)[v] <= Level(g, v) < steps
  {
    if v in Solved(g, steps) {
      PlacedIsGrounded(g, steps, 0, v);
    }
    if Grounded(g, v) {
      LevelWalk(g, v);
      WalkPrefix(g, v, Level(g, v), steps);
      PlacedByLevel(g, steps, v);
    }
  }

  /** Walks shorter than a bound have an end inside it: no walk is at least that long. */
  lemma {:induction false} WalkPrefix(g: Graph, v: Name, k: nat, n: nat)
    requires WellFormed(g) && WalkTo(g, v, k) && WalksEndBefore(g, n)
    ensures k < n
    decreases k
  {
    if k >= n && k > 0 {
      var p :| p in g.preds[v] && WalkTo(g, p, k - 1);
      if k > n {
        WalkPrefix(g, p, k - 1, n);
      }
    }
  }
}
