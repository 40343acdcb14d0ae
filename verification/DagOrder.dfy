/** How far the steps of an operand dag follow its requirements (operator/v1/dag/dag.go). */
module OperandDagOrder {
  import opened Collections
  import opened Operands
  import opened Graphs
  import opened OperandDag

  // ---------- number of steps ----------

  lemma ChainFits(g: Graph, steps: nat, c: seq<Name>)
    requires WellFormed(g) && WalksEndBefore(g, steps) && IsChain(g, c) && Grounded(g, c[|c| - 1])
    ensures |c| <= steps
  {
    ChainEnds(g, c, |c| - 1);
    LevelBounds(g, c[|c| - 1], |c| - 1);
    SolutionKeys(g, steps, c[|c| - 1]);
  }

  lemma ChainFills(g: Graph, steps: nat) returns (c: seq<Name>)
    requires WellFormed(g) && steps > 0 && FrontierList(g, steps - 1) != []
    ensures IsChain(g, c) && |c| == steps
  {
    var v := FrontierList(g, steps - 1)[0];
    FrontierIsWalks(g, steps - 1, v);
    c := WalkOf(g, v, steps - 1);
  }

  /** The loop runs once per operand of the longest chain of requirements, and misses no operand. */
  lemma StepsAreLongestChain(g: Graph, steps: nat)
    requires WellFormed(g) && Acyclic(g)
    requires WalksEndBefore(g, steps) && forall k :: 0 <= k < steps ==> FrontierList(g, k) != []
    ensures forall c :: IsChain(g, c) ==> |c| <= steps
    ensures steps > 0 ==> exists c :: IsChain(g, c) && |c| == steps
    ensures forall v :: v in g.values ==> v in Solved(g, steps)
  {
    AcyclicIffGrounded(g);
    forall c | IsChain(g, c) ensures |c| <= steps {
      ChainFits(g, steps, c);
    }
    if steps > 0 {
      var c := ChainFills(g, steps);
    }
    forall v | v in g.values ensures v in Solved(g, steps) {
      SolutionKeys(g, steps, v);
    }
  }

  // ---------- when requirements come at a strictly earlier step ----------

  ghost predicate Strict(g: Graph, order: Steps)
    requires WellFormed(g)
  {
    forall op, dep :: op in g.values && op in order && dep in g.preds[op] ==>
      dep in order && order[dep] < order[op]
  }

  /** op is already a root one step before its level, listed after every requirement of that step's level. */
  ghost predicate Overtaken(g: Graph, op: Name)
    requires WellFormed(g)
  {
    && Grounded(g, op) && Level(g, op) > 0
    && op in FrontierList(g, Level(g, op) - 1)
    && forall p :: p in g.preds[op] && Grounded(g, p) && Level(g, p) + 1 == Level(g, op) ==>
         Precedes(FrontierList(g, Level(g, op) - 1), p, op)
  }

  /** What a pass has placed at the pass's own step stands earlier in its list. */
  lemma PlacedEarlier(g: Graph, k: nat, i: nat, p: Name)
    requires WellFormed(g) && i < |FrontierList(g, k)| && p in Before(g, k, i)
    ensures Before(g, k, i)[p] <= k
    ensures Before(g, k, i)[p] == k ==> Precedes(FrontierList(g, k), p, FrontierList(g, k)[i])
  {
    BeforeOrigin(g, k, i, p);
    if p in Solved(g, k) {
      PlacedOnce(g, k, k, p);
    }
  }

  lemma EarlyLevel(g: Graph, k: nat, i: nat)
    requires WellFormed(g) && i < |FrontierList(g, k)|
    requires var c := FrontierList(g, k)[i];
             && Grounded(g, c) && Level(g, c) > k
             && forall p :: p in g.preds[c] ==>
                  p in Before(g, k, i) && Grounded(g, p) && Before(g, k, i)[p] == Level(g, p)
    ensures Level(g, FrontierList(g, k)[i]) == k + 1
  {
    var q := LevelPred(g, FrontierList(g, k)[i]);
    PlacedEarlier(g, k, i, q);
  }

  /** If a pass places a name above the pass's level, the name is overtaken. */
  lemma EarlyIsOvertaken(g: Graph, k: nat, i: nat)
    requires WellFormed(g) && i < |FrontierList(g, k)|
    requires var c := FrontierList(g, k)[i];
             && Grounded(g, c) && Level(g, c) > k
             && forall p :: p in g.preds[c] ==>
                  p in Before(g, k, i) && Grounded(g, p) && Before(g, k, i)[p] == Level(g, p)
    ensures Overtaken(g, FrontierList(g, k)[i])
  {
    var c := FrontierList(g, k)[i];
    EarlyLevel(g, k, i);
    forall p | p in g.preds[c] && Grounded(g, p) && Level(g, p) == k ensures Precedes(FrontierList(g, k), p, c) {
      PlacedEarlier(g, k, i, p);
    }
  }

  lemma {:induction false} NoneOvertaken(g: Graph, k: nat, i: nat, v: Name)
    requires WellFormed(g) && (forall op :: !Overtaken(g, op))
    requires i <= |FrontierList(g, k)| && v in Before(g, k, i)
    ensures Grounded(g, v) && Before(g, k, i)[v] == Level(g, v)
    decreases k, i
  {
    if i > 0 {
      if v in Before(g, k, i - 1) {
        NoneOvertaken(g, k, i - 1, v);
      } else {
        forall p | p in g.preds[v] ensures Grounded(g, p) && Before(g, k, i - 1)[p] == Level(g, p) {
          NoneOvertaken(g, k, i - 1, p);
        }
        GroundedByPreds(g, v);
        FrontierIsWalks(g, k, v);
        WalkIsChain(g, v, k);
        if Level(g, v) > k {
          EarlyIsOvertaken(g, k, i - 1);
        }
      }
    } else if k > 0 {
      NoneOvertaken(g, k - 1, |FrontierList(g, k - 1)|, v);
    }
  }

  /** A strict solution gives every operand exactly its level. */
  lemma {:induction false} StrictIsLevel(g: Graph, steps: nat, v: Name)
    requires WellFormed(g) && WalksEndBefore(g, steps) && Strict(g, Solved(g, steps)) && Grounded(g, v)
    ensures v in Solved(g, steps) && Solved(g, steps)[v] == Level(g, v)
    decreases Level(g, v)
  {
    SolutionKeys(g, steps, v);
    if Level(g, v) > 0 {
      var p := LevelPred(g, v);
      StrictIsLevel(g, steps, p);
    }
  }

  /** In a list without repetition, what was placed at its place before another is placed by then. */
  lemma PlacedBefore(g: Graph, k: nat, p: Name, op: Name, j: nat, i: nat)
    requires WellFormed(g) && i < |FrontierList(g, k)| && FrontierList(g, k)[i] == op
    requires j < |FrontierList(g, k)| && FrontierList(g, k)[j] == p && Ready(g, Before(g, k, j), p)
    requires Precedes(FrontierList(g, k), p, op)
    ensures p in Before(g, k, i)
  {
    var f := FrontierList(g, k);
    FrontierIsWalks(g, k, p);
    var a, b :| 0 <= a < b < |f| && f[a] == p && f[b] == op;
    assert a == j && b == i;
    BeforeGrows(g, k, j + 1, i);
  }

  /** The requirements of an overtaken operand are all placed when the pass comes by it. */
  lemma OvertakenRequirement(g: Graph, steps: nat, op: Name, i: nat, p: Name)
    requires WellFormed(g) && WalksEndBefore(g, steps) && Strict(g, Solved(g, steps))
    requires Overtaken(g, op) && p in g.preds[op]
    requires i < |FrontierList(g, Level(g, op) - 1)| && FrontierList(g, Level(g, op) - 1)[i] == op
    ensures p in Before(g, Level(g, op) - 1, i)
  {
    var k := Level(g, op) - 1;
    GroundedPred(g, op, p);
    if Level(g, p) < k {
      PlacedByLevel(g, k, p);
      BeforeGrows(g, k, 0, i);
    } else {
      StrictIsLevel(g, steps, p);
      var j := Placement(g, steps, p);
      PlacedBefore(g, k, p, op, j, i);
    }
  }

  lemma OvertakenIsNotStrict(g: Graph, steps: nat, op: Name)
    requires WellFormed(g) && WalksEndBefore(g, steps) && Overtaken(g, op)
    ensures !Strict(g, Solved(g, steps))
  {
    if Strict(g, Solved(g, steps)) {
      var k := Level(g, op) - 1;
      var i :| 0 <= i < |FrontierList(g, k)| && FrontierList(g, k)[i] == op;
      forall p | p in g.preds[op] ensures p in Before(g, k, i) {
        OvertakenRequirement(g, steps, op, i, p);
      }
      PassPlaces(g, k, i);
      SolutionKeys(g, steps, op);
      PlacedOnce(g, k + 1, steps, op);
      StrictIsLevel(g, steps, op);
    }
  }

  /** Every requirement lands at a strictly earlier step exactly when no operand is overtaken, which
      is exactly when every operand lands at its level. */
  lemma StrictIffNoneOvertaken(g: Graph, steps: nat)
    requires WellFormed(g) && WalksEndBefore(g, steps)
    ensures Strict(g, Solved(g, steps)) <==> forall op :: !Overtaken(g, op)
    ensures Strict(g, Solved(g, steps)) <==>
            forall v :: v in Solved(g, steps) ==> Grounded(g, v) && Solved(g, steps)[v] == Level(g, v)
  {
    var order := Solved(g, steps);
    if op :| Overtaken(g, op) {
      OvertakenIsNotStrict(g, steps, op);
    } else {
      forall v | v in order ensures Grounded(g, v) && order[v] == Level(g, v) {
        NoneOvertaken(g, steps, 0, v);
      }
    }
    if forall v :: v in order ==> Grounded(g, v) && order[v] == Level(g, v) {
      forall op, dep | op in g.values && op in order && dep in g.preds[op]
        ensures dep in order && order[dep] < order[op]
      {
        GroundedPred(g, op, dep);
        SolutionKeys(g, steps, dep);
      }
    }
    if Strict(g, order) {
      forall v | v in order ensures Grounded(g, v) && order[v] == Level(g, v) {
        SolutionKeys(g, steps, v);
        StrictIsLevel(g, steps, v);
      }
    }
  }

  // ---------- testing against the map as it stood when the step began ----------

  /** The variant whose passes test requirements against the map of the finished steps only. */
  function SnapshotBefore(g: Graph, step: nat, i: nat): Steps
    requires WellFormed(g) && i <= |FrontierList(g, step)|
    decreases step, i, 0
  {
    if i > 0 then
      var o := SnapshotBefore(g, step, i - 1);
      var c := FrontierList(g, step)[i - 1];
      if Ready(g, Snapshot(g, step), c) then o[c := step] else o
    else if step > 0 then SnapshotBefore(g, step - 1, |FrontierList(g, step - 1)|)
    else map[]
  }

  function Snapshot(g: Graph, k: nat): Steps
    requires WellFormed(g)
    decreases k, 0, 1
  {
    SnapshotBefore(g, k, 0)
  }

  lemma {:induction false} SnapshotPass(g: Graph, k: nat, i: nat, v: Name)
    requires WellFormed(g) && i <= |FrontierList(g, k)|
    ensures v in SnapshotBefore(g, k, i) <==>
            v in Snapshot(g, k) || (v in FrontierList(g, k)[..i] && Ready(g, Snapshot(g, k), v))
    ensures v in SnapshotBefore(g, k, i) ==>
            SnapshotBefore(g, k, i)[v] == if v in Snapshot(g, k) then Snapshot(g, k)[v] else k
    decreases i
  {
    if i > 0 {
      SnapshotPass(g, k, i - 1, v);
      var f := FrontierList(g, k);
      assert f[..i] == f[..i - 1] + [f[i - 1]];
    }
  }

  lemma SnapshotStep(g: Graph, k: nat, v: Name)
    requires WellFormed(g)
    ensures v in Snapshot(g, k + 1) <==>
            v in Snapshot(g, k) || (v in FrontierList(g, k) && Ready(g, Snapshot(g, k), v))
    ensures v in Snapshot(g, k + 1) ==>
            Snapshot(g, k + 1)[v] == if v in Snapshot(g, k) then Snapshot(g, k)[v] else k
  {
    var f := FrontierList(g, k);
    assert f[..|f|] == f;
    SnapshotPass(g, k, |f|, v);
  }

  lemma {:induction false} SnapshotIsLevel(g: Graph, k: nat, v: Name)
    requires WellFormed(g)
    ensures v in Snapshot(g, k) <==> Grounded(g, v) && Level(g, v) < k
    ensures v in Snapshot(g, k) ==> Snapshot(g, k)[v] == Level(g, v)
    decreases k, 0
  {
    if k > 0 {
      SnapshotStep(g, k - 1, v);
      SnapshotIsLevel(g, k - 1, v);
      if v in FrontierList(g, k - 1) && Ready(g, Snapshot(g, k - 1), v) {
        FrontierIsWalks(g, k - 1, v);
        SnapshotReady(g, k - 1, v);
      } else if Grounded(g, v) && Level(g, v) == k - 1 {
        LevelReady(g, v);
        LevelWalk(g, v);
        FrontierIsWalks(g, k - 1, v);
      }
    }
  }

  lemma SnapshotReady(g: Graph, k: nat, v: Name)
    requires WellFormed(g) && WalkTo(g, v, k) && Ready(g, Snapshot(g, k), v)
    ensures Grounded(g, v) && Level(g, v) == k
    decreases k, 1
  {
    forall p | p in g.preds[v] ensures Grounded(g, p) && Level(g, p) < k {
      SnapshotIsLevel(g, k, p);
    }
    GroundedByPreds(g, v);
    WalkIsChain(g, v, k);
    if Level(g, v) > 0 {
      var p := LevelPred(g, v);
    }
  }

  lemma LevelReady(g: Graph, v: Name)
    requires WellFormed(g) && Grounded(g, v)
    ensures Ready(g, Snapshot(g, Level(g, v)), v)
    decreases Level(g, v), 1
  {
    SnapshotIsLevel(g, Level(g, v), v);
    forall p | p in g.preds[v] ensures p in Snapshot(g, Level(g, v)) {
      GroundedPred(g, v, p);
      SnapshotIsLevel(g, Level(g, v), p);
    }
  }

  /** The variant is always strict. */
  lemma SnapshotIsStrict(g: Graph, steps: nat)
    requires WellFormed(g)
    ensures Strict(g, Snapshot(g, steps))
  {
    var order := Snapshot(g, steps);
    forall op, dep | op in g.values && op in order && dep in g.preds[op]
      ensures dep in order && order[dep] < order[op]
    {
      SnapshotIsLevel(g, steps, op);
      GroundedPred(g, op, dep);
      SnapshotIsLevel(g, steps, dep);
    }
  }

  // ---------- the order of the operands ----------

  /** Step s holds, once each, the operands that the solution puts at s. */
  ghost predicate Layered(g: Graph, soln: Steps, o: OperandOrder)
    requires WellFormed(g)
  {
    && (forall s :: 0 <= s < |o| ==> NoDup(o[s]))
    && (forall s, op :: 0 <= s < |o| ==>
          (op in o[s] <==> op.name in g.values && g.values[op.name] == op && op.name in soln && soln[op.name] == s))
  }

  lemma AppendKeepsLayers(g: Graph, done: Steps, o: OperandOrder, name: Name, s: nat)
    requires WellFormed(g) && Layered(g, done, o) && name in g.values && name !in done && s < |o|
    ensures Layered(g, done[name := s], o[s := o[s] + [g.values[name]]])
  {
    assert g.values[name] !in o[s];
  }

  /** The operands outside rest are in their steps. */
  ghost predicate Filling(g: Graph, order: Steps, rest: set<Name>, done: Steps, o: OperandOrder)
    requires WellFormed(g)
  {
    && rest <= order.Keys && done.Keys == order.Keys - rest
    && (forall v :: v in done ==> done[v] == order[v])
    && Layered(g, done, o)
  }

  lemma FillOne(g: Graph, order: Steps, rest: set<Name>, done: Steps, o: OperandOrder, name: Name)
    requires WellFormed(g) && Filling(g, order, rest, done, o) && name in rest && name in g.values && order[name] < |o|
    ensures Filling(g, order, rest - {name}, done[name := order[name]],
                    o[order[name] := o[order[name]] + [g.values[name]]])
  {
    AppendKeepsLayers(g, done, o, name, order[name]);
  }

  lemma SolutionSteps(g: Graph, order: Steps, steps: nat)
    requires WellFormed(g) && WalksEndBefore(g, steps) && order == Solved(g, steps)
    ensures forall v :: Grounded(g, v) <==> v in order
    ensures forall v :: v in order ==> order[v] < steps && v in g.values
  {
    forall v
      ensures Grounded(g, v) <==> v in order
      ensures v in order ==> order[v] < steps && v in g.values
    {
      SolutionKeys(g, steps, v);
    }
  }

  method Order(g: Graph) returns (o: OperandOrder, ghost soln: Steps)
    requires WellFormed(g)
    requires exists n: nat :: WalksEndBefore(g, n)
    ensures soln == Solved(g, |o|)
    ensures WalksEndBefore(g, |o|) && forall k :: 0 <= k < |o| ==> FrontierList(g, k) != []
    ensures Layered(g, soln, o)
    ensures forall v :: Grounded(g, v) <==> v in soln
    ensures forall v :: v in soln ==> soln[v] < |o| && v in g.values && g.values[v] in o[soln[v]]
  {
    var order, steps := Solve(g);
    soln := order;
    SolutionSteps(g, order, steps);
    o := seq(steps, _ => []);
    var rest := order.Keys;
    ghost var done: Steps := map[];
    while rest != {}
      invariant |o| == steps && Filling(g, order, rest, done, o)
    {
      var name :| name in rest;
      var s := order[name];
      FillOne(g, order, rest, done, o, name);
      o := o[s := o[s] + [g.values[name]]];
      done := done[name := s];
      rest := rest - {name};
    }
    assert done == order;
  }

  // ---------- three operands ----------

  /** b requires a, and c requires a and b; the successors of a are enumerated as given. */
  function Triangle(a: Name, b: Name, c: Name, successorsOfA: seq<Name>): Graph {
    Graph(map[a := Operand(a, [], RequeueOnError), b := Operand(b, [a], RequeueOnError),
              c := Operand(c, [a, b], RequeueOnError)],
          map[a := [], b := [a], c := [a, b]],
          map[a := successorsOfA, b := [c], c := []],
          [a])
  }

  lemma TriangleLinked(a: Name, b: Name, c: Name, x: Name, y: Name)
    requires a != b && b != c && a != c && ((x == b && y == c) || (x == c && y == b))
    ensures Linked(Triangle(a, b, c, [x, y]))
  {
    var g := Triangle(a, b, c, [x, y]);
    assert g.succs[a] == [x, y] && g.succs[b] == [c] && g.succs[c] == [];
    assert g.preds[a] == [] && g.preds[b] == [a] && g.preds[c] == [a, b];
  }

  lemma TriangleWellFormed(a: Name, b: Name, c: Name, x: Name, y: Name)
    requires a != b && b != c && a != c && ((x == b && y == c) || (x == c && y == b))
    ensures WellFormed(Triangle(a, b, c, [x, y]))
  {
    TriangleLinked(a, b, c, x, y);
  }

  lemma NextOfOne(g: Graph, x: Name)
    requires WellFormed(g) && x in g.values
    ensures NextRoots(g, [x]) == AddMissing([], g.succs[x])
  {
    assert [x][..0] == [];
  }

  lemma NextOfTwo(g: Graph, x: Name, y: Name)
    requires WellFormed(g) && x in g.values && y in g.values
    ensures NextRoots(g, [x, y]) == AddMissing(AddMissing([], g.succs[x]), g.succs[y])
  {
    assert [x, y][..1] == [x];
    NextOfOne(g, x);
  }

  lemma AddOne(s: seq<Name>, x: Name)
    ensures AddMissing(s, []) == s
    ensures AddMissing(s, [x]) == if x in s then s else s + [x]
  {
    assert [x][..0] == [];
  }

  lemma TriangleFrontiers(a: Name, b: Name, c: Name, x: Name, y: Name)
    requires a != b && b != c && a != c && ((x == b && y == c) || (x == c && y == b))
    ensures var g := Triangle(a, b, c, [x, y]);
            && WellFormed(g)
            && FrontierList(g, 0) == [a]
            && FrontierList(g, 1) == [x, y]
            && FrontierList(g, 2) == [c]
  {
    var g := Triangle(a, b, c, [x, y]);
    TriangleWellFormed(a, b, c, x, y);
    assert AddMissing([], [x, y]) == [x, y] by {
      AddOne([], x);
      assert [x, y][..1] == [x];
    }
    NextOfOne(g, a);
    NextOfTwo(g, x, y);
    AddOne([], c);
    AddOne([c], c);
  }

  /** With b listed before c both land at step 1, although c requires b. */
  lemma SameStepWitness(a: Name, b: Name, c: Name)
    requires a != b && b != c && a != c
    ensures var g := Triangle(a, b, c, [b, c]);
            WellFormed(g) && Solved(g, 2) == map[a := 0, b := 1, c := 1] && !Strict(g, Solved(g, 2))
  {
    TriangleFrontiers(a, b, c, b, c);
    var g := Triangle(a, b, c, [b, c]);
    assert Before(g, 0, 1) == map[a := 0];
    assert Before(g, 1, 1) == map[a := 0, b := 1];
    var order := Solved(g, 2);
    assert order[b] == order[c] == 1 && b in g.preds[c];
  }

  /** With c listed first, c lands after b. */
  lemma LaterStepWitness(a: Name, b: Name, c: Name)
    requires a != b && b != c && a != c
    ensures var g := Triangle(a, b, c, [c, b]);
            WellFormed(g) && Solved(g, 3) == map[a := 0, b := 1, c := 2]
  {
    TriangleFrontiers(a, b, c, c, b);
    var g := Triangle(a, b, c, [c, b]);
    LaterStepPasses(a, b, c);
    assert Before(g, 2, 0) == map[a := 0, b := 1];
    assert Ready(g, Before(g, 2, 0), c);
  }

  lemma LaterStepPasses(a: Name, b: Name, c: Name)
    requires a != b && b != c && a != c
    ensures var g := Triangle(a, b, c, [c, b]);
            WellFormed(g) && Solved(g, 2) == map[a := 0, b := 1]
  {
    TriangleFrontiers(a, b, c, c, b);
    var g := Triangle(a, b, c, [c, b]);
    var first: Steps := map[a := 0];
    assert Before(g, 0, 1) == first;
    assert Solved(g, 1) == Before(g, 1, 0) == first;
    assert !Ready(g, first, c) by {
      assert b in g.preds[c] && b !in first;
    }
    assert Before(g, 1, 1) == first;
    assert Ready(g, first, b);
  }
}
