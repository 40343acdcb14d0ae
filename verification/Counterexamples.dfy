/** Inputs that the code accepts and on which it does not do what it is for. */
module Counterexamples {
  import opened Collections
  import opened Operands
  import opened Graphs
  import opened OperandDag
  import opened OperandDagOrder
  import opened OperandDagBuild
  import opened Executor
  import opened Goroutines
  import opened Execution
  import opened CompositeOperators
  import opened Cleanups
  import FieldIndex
  import Rbac
  import Reconciler

  // ---------- cycles ----------

  lemma NeedsPreds(ops: seq<Operand>, g: Graph, v: Name)
    requires WellFormed(g) && Represents(ops, g) && v in g.values
    ensures g.preds[v] == [] <==> g.values[v].needs == []
  {
    if g.preds[v] != [] {
      FirstMember(g.preds[v]);
    }
    if g.values[v].needs != [] {
      FirstMember(g.values[v].needs);
    }
  }

  lemma HasEdge(ops: seq<Operand>, g: Graph, op: Operand, p: Name)
    requires WellFormed(g) && Represents(ops, g) && op in ops && p in op.needs
    ensures op.name in g.values && p in g.preds[op.name]
  {
  }

  /** a requires nothing; b requires a and c, and c requires b. */
  function Looping(a: Name, b: Name, c: Name): seq<Operand> {
    [Operand(a, [], RequeueOnError), Operand(b, [a, c], RequeueOnError), Operand(c, [b], RequeueOnError)]
  }

  lemma LoopingBuildable(a: Name, b: Name, c: Name)
    requires a != b && b != c && a != c
    ensures Buildable(Looping(a, b, c), true)
  {
    var ops := Looping(a, b, c);
    assert ops[0].name == a && ops[1].name == b && ops[2].name == c;
    assert Named(ops, 3, a) && Named(ops, 3, b) && Named(ops, 3, c);
  }

  lemma LoopingWalk(a: Name, b: Name, c: Name, g: Graph)
    requires a != b && b != c && a != c && WellFormed(g) && Represents(Looping(a, b, c), g)
    ensures IsWalk(g, [a, b, c, b])
  {
    var ops := Looping(a, b, c);
    assert ops[0] in ops && ops[1] in ops && ops[2] in ops;
    HasEdge(ops, g, ops[1], a);
    HasEdge(ops, g, ops[1], c);
    HasEdge(ops, g, ops[2], b);
    IsSource(ops, g, ops[0]);
    WalkOfFour(g, a, b, c);
  }

  lemma IsSource(ops: seq<Operand>, g: Graph, op: Operand)
    requires WellFormed(g) && Represents(ops, g) && op in ops && op.needs == []
    ensures op.name in g.sources
  {
    NeedsPreds(ops, g, op.name);
  }

  lemma WalkOfFour(g: Graph, a: Name, b: Name, c: Name)
    requires WellFormed(g) && a in g.sources && b in g.values && c in g.values
    requires a in g.preds[b] && c in g.preds[b] && b in g.preds[c]
    ensures IsWalk(g, [a, b, c, b])
  {
  }

  /** The graph of these operands is built, and the loop over it never comes to an empty list of roots. */
  lemma LoopNeverEnds(a: Name, b: Name, c: Name, g: Graph, k: nat)
    requires a != b && b != c && a != c && WellFormed(g) && Represents(Looping(a, b, c), g)
    ensures Buildable(Looping(a, b, c), true)
    ensures FrontierList(g, k) != []
  {
    LoopingBuildable(a, b, c);
    LoopingWalk(a, b, c, g);
    var walk := [a, b, c, b];
    assert walk[1] == walk[3];
    SolveEndsIff(g);
  }

  /** x and y require each other. */
  function Mutual(x: Name, y: Name): seq<Operand> {
    [Operand(x, [y], RequeueOnError), Operand(y, [x], RequeueOnError)]
  }

  lemma MutualBuildable(x: Name, y: Name)
    requires x != y
    ensures Buildable(Mutual(x, y), true) && NoReachableCycle(Mutual(x, y))
  {
    var ops := Mutual(x, y);
    assert ops[0].name == x && ops[1].name == y;
    assert Named(ops, 2, x) && Named(ops, 2, y);
  }

  /** An operator is made of these operands without an error, and its order is empty. */
  lemma BothDropped(x: Name, y: Name, co: CompositeOperator)
    requires x != y && Valid(co) && co.operands == Mutual(x, y)
    ensures Buildable(Mutual(x, y), true) && NoReachableCycle(Mutual(x, y))
    ensures co.order == []
  {
    MutualBuildable(x, y);
    var ops, g := Mutual(x, y), co.graph;
    forall v | v in g.values ensures v !in g.sources {
      assert g.values[v] in ops;
      NeedsPreds(ops, g, v);
    }
    if co.order != [] {
      FirstMember(FrontierList(g, 0));
    }
  }

  // ---------- a requeue ----------

  /** b requires a and asks for a requeue on every change. */
  function Pair(a: Name, b: Name): seq<Operand> {
    [Operand(a, [], RequeueOnError), Operand(b, [a], RequeueAlways)]
  }

  lemma PairGraph(a: Name, b: Name, g: Graph)
    requires a != b && WellFormed(g) && Represents(Pair(a, b), g)
    ensures (forall v :: v in g.values <==> v == a || v == b) && g.values[a] == Pair(a, b)[0] &&
            g.values[b] == Pair(a, b)[1]
    ensures g.preds[a] == [] && forall p :: p in g.preds[b] <==> p == a
    ensures a in g.sources && b !in g.sources
  {
    var ops := Pair(a, b);
    assert ops[0] in ops && ops[1] in ops;
    forall v | v in g.values ensures v == a || v == b {
      assert g.values[v] in ops;
    }
    NeedsPreds(ops, g, a);
    NeedsPreds(ops, g, b);
  }

  lemma PairWalks(a: Name, b: Name, g: Graph, v: Name, k: nat)
    requires a != b && WellFormed(g) && Represents(Pair(a, b), g)
    ensures WalkTo(g, v, k) <==> (k == 0 && v == a) || (k == 1 && v == b)
  {
    PairGraph(a, b, g);
    if k == 1 && v == b {
      assert a in g.preds[b] && WalkTo(g, a, 0);
    }
    if k > 1 && WalkTo(g, v, k) {
      var p :| p in g.preds[v] && WalkTo(g, p, k - 1);
    }
  }

  lemma PairGrounded(a: Name, b: Name, g: Graph)
    requires a != b && WellFormed(g) && Represents(Pair(a, b), g)
    ensures Grounded(g, a) && Grounded(g, b)
  {
    PairGraph(a, b, g);
    GroundedByPreds(g, a);
    GroundedByPreds(g, b);
  }

  lemma OnlyMember<T>(s: seq<T>, x: T)
    requires NoDup(s) && forall y :: y in s <==> y == x
    ensures s == [x]
  {
    assert x in s;
    forall i | 0 <= i < |s| ensures s[i] == x {
      assert s[i] in s;
    }
    assert (set y | y in s) == {x};
    NoDupCardinality(s);
  }

  lemma PairSteps(a: Name, b: Name, co: CompositeOperator)
    requires a != b && Valid(co) && co.operands == Pair(a, b)
    ensures |co.order| == 2
  {
    var g, n := co.graph, |co.order|;
    PairWalks(a, b, g, a, n);
    PairWalks(a, b, g, b, n);
    if n > 2 {
      FrontierEmptyIff(g, 2);
      forall v ensures !WalkTo(g, v, 2) {
        PairWalks(a, b, g, v, 2);
      }
    }
  }

  lemma PairStep(a: Name, b: Name, co: CompositeOperator, v: Name)
    requires a != b && Valid(co) && co.operands == Pair(a, b) && (v == a || v == b)
    ensures v in Solution(co) && Solution(co)[v] == if v == a then 0 else 1
  {
    var g, n := co.graph, |co.order|;
    PairGrounded(a, b, g);
    SolutionKeys(g, n, v);
    var i := Placement(g, n, v);
    FrontierIsWalks(g, Solution(co)[v], v);
    PairWalks(a, b, g, v, Solution(co)[v]);
  }

  lemma PairOrder(a: Name, b: Name, co: CompositeOperator)
    requires a != b && Valid(co) && co.operands == Pair(a, b)
    ensures co.order == [[Pair(a, b)[0]], [Pair(a, b)[1]]]
  {
    PairGraph(a, b, co.graph);
    PairSteps(a, b, co);
    PairStep(a, b, co, a);
    PairStep(a, b, co, b);
    forall s, op | 0 <= s < 2 ensures op in co.order[s] <==> op == Pair(a, b)[s] {
      assert op in co.order[s] <==>
             op.name in co.graph.values && co.graph.values[op.name] == op && Solution(co)[op.name] == s;
    }
    OnlyMember(co.order[0], Pair(a, b)[0]);
    OnlyMember(co.order[1], Pair(a, b)[1]);
  }

  /** A step of one operand whose call succeeds with an event. */
  lemma SingleStep<W>(strategy: Strategy, op: Operand, call: Behaviour<W>, w: W, out: StepOutcome<W>)
    requires StepMay(strategy, [op], call, w, out) && call(op, w).err.None? && call(op, w).event
    ensures out.err.None? && out.changed
  {
    var r := call(op, w);
    assert [op][0] == op && [op][1..] == [];
    assert SerialStep([op][1..], call, r.world) == StepOutcome([], false, None, r.world);
    if strategy == Parallel {
      var ops := OpsOf(out.calls);
      assert |multiset(ops)| == |ops| == 1 && ops[0] in multiset(ops);
      assert ops == [op];
      assert CallAll([op][1..], call, r.world) == ([], r.world);
      assert out.calls == [CallOf(op, r)];
      assert out.calls[0].event;
    }
  }

  /** Cleaning up these operands, when deleting b succeeds with an event, stops after b and asks for a
      requeue without an error; a is not deleted, and the reconciler removes the finalizer. */
  lemma RemovedBeforeDeleted<W>(a: Name, b: Name, co: CompositeOperator, h: Hooks<W>, w0: W, run: Executed<W>,
                                c: Reconciler.Config, s: Reconciler.Sys)
    requires a != b && Valid(co) && co.operands == Pair(a, b) && !co.strategy.Unknown? &&
            CleanupMay(co, false, h, w0, run)
    requires h.delete(Pair(a, b)[1], w0).err.None? && h.delete(Pair(a, b)[1], w0).event
    requires Reconciler.Enabled(c, s, Reconciler.Cleanup(run.err.None?))
    ensures Acyclic(co.graph) && |co.order| == 2
    ensures run.requeue && run.err.None? && !Called(run.log, Pair(a, b)[0])
    ensures Reconciler.Next(c, s, Reconciler.Cleanup(run.err.None?)).pc.PutRemove?
  {
    PairOrder(a, b, co);
    CleanupStops(co, Pair(a, b)[1], Pair(a, b)[0], h, w0, run);
    PairNotCalled(a, b, co, h, w0, run);
    PairAcyclic(a, b, co.graph);
  }

  lemma PairAcyclic(a: Name, b: Name, g: Graph)
    requires a != b && WellFormed(g) && Represents(Pair(a, b), g)
    ensures Acyclic(g)
  {
    PairGrounded(a, b, g);
    PairGraph(a, b, g);
    AcyclicIffGrounded(g);
  }

  lemma PairNotCalled<W>(a: Name, b: Name, co: CompositeOperator, h: Hooks<W>, w0: W, run: Executed<W>)
    requires a != b && Valid(co) && co.operands == Pair(a, b) && CleanupMay(co, false, h, w0, run) && |run.log| <= 1
    ensures !Called(run.log, Pair(a, b)[0])
  {
    if t: nat :| CalledAt(run.log, t, Pair(a, b)[0]) {
      CleanupCalls(co, h, w0, run, t, Pair(a, b)[0]);
      PairStep(a, b, co, a);
      PairSteps(a, b, co);
    }
  }

  lemma CleanupStops<W>(co: CompositeOperator, first: Operand, second: Operand, h: Hooks<W>, w0: W, run: Executed<W>)
    requires co.order == [[second], [first]] && !co.strategy.Unknown? && CleanupMay(co, false, h, w0, run)
    requires first.requeue == RequeueAlways && h.delete(first, w0).err.None? && h.delete(first, w0).event
    ensures |run.log| == 1 && run.requeue && run.err.None?
  {
    assert Reversed(co.order) == [[first], [second]];
    StopsAfterFirst(co.strategy, first, second, CallCleanup(h), w0, run);
  }

  lemma StopsAfterFirst<W>(strategy: Strategy, first: Operand, second: Operand, call: Behaviour<W>, w0: W,
                           run: Executed<W>)
    requires MayExecute(strategy, [[first], [second]], call, w0, run) && !strategy.Unknown?
    requires first.requeue == RequeueAlways && call(first, w0).err.None? && call(first, w0).event
    ensures |run.log| == 1 && run.requeue && run.err.None?
  {
    var order := [[first], [second]];
    assert StepsUnder(strategy, call)(order[0], WorldBefore(w0, run.log, 0), run.log[0]);
    SingleStep(strategy, first, call, w0, run.log[0]);
    assert order[0][0].requeue == RequeueAlways;
  }

  // ---------- the middle step ----------

  lemma TriangleSteps(a: Name, b: Name, c: Name, n: nat)
    requires a != b && b != c && a != c && WellFormed(Triangle(a, b, c, [b, c]))
    requires WalksEndBefore(Triangle(a, b, c, [b, c]), n)
    requires forall k :: 0 <= k < n ==> FrontierList(Triangle(a, b, c, [b, c]), k) != []
    ensures n == 3
    ensures var soln := Solved(Triangle(a, b, c, [b, c]), n); b in soln && soln[b] == 1 && c in soln && soln[c] == 1
  {
    var g := Triangle(a, b, c, [b, c]);
    TriangleFrontiers(a, b, c, b, c);
    NextOfOne(g, c);
    FrontierEmptyIff(g, n);
    assert FrontierList(g, 3) == [];
    SameStepWitness(a, b, c);
    PlacedOnce(g, 2, 3, b);
    PlacedOnce(g, 2, 3, c);
  }

  /** b requires a, c requires a and b, b is enumerated before c: there are three steps, b and c are in
      the middle one, and no cleanup calls either of them. */
  lemma MiddleStepWitness<W>(co: CompositeOperator, h: Hooks<W>, w0: W, run: Executed<W>, a: Name, b: Name, c: Name)
    requires a != b && b != c && a != c
    requires Valid(co) && co.graph == Triangle(a, b, c, [b, c]) && CleanupMay(co, false, h, w0, run)
    ensures |co.order| == 3
    ensures !Called(run.log, co.graph.values[b]) && !Called(run.log, co.graph.values[c])
  {
    var g := co.graph;
    TriangleSteps(a, b, c, |co.order|);
    assert g.values[b] in co.order[1] && g.values[c] in co.order[1];
    MiddleStepLost(co, h, w0, run, g.values[b]);
    MiddleStepLost(co, h, w0, run, g.values[c]);
  }

  // ---------- keys ----------

  /** Two recorded rules whose groups and resources share a key: grouping them loses a grant. */
  lemma KeyCollision()
    ensures var es := [Rbac.Entry("a", "b_c", ["get"]), Rbac.Entry("a_b", "c", ["get"])];
            !Rbac.SameGrants(Rbac.MergeAll([], es), es)
  {
    var es := [Rbac.Entry("a", "b_c", ["get"]), Rbac.Entry("a_b", "c", ["get"])];
    assert Rbac.KeyOf(es[0]) == "a_b_c" == Rbac.KeyOf(es[1]);
    assert !Rbac.Same(es[0], es[1]);
    Rbac.GrantsKeptIff(es);
  }

  // ---------- the scope of a cache ----------

  /** A cache over all namespaces has a root scope: it lists an object that has a namespace and does not
      find it by its own key. */
  lemma ListedNotFound(o: FieldIndex.Item)
    requires o.ns != "" && FieldIndex.NoSlash(o.ns) && FieldIndex.NoSlash(o.name)
    ensures var x := FieldIndex.Indexer(map[FieldIndex.StoreKey(o.ns, o.name) := o], map[]);
            && FieldIndex.ValidStore(x) && o in x.store.Values && FieldIndex.Found(x, "", None, o)
            && FieldIndex.Get(x, true, o.ns, o.name) == None
  {
    FieldIndex.StoreKeysEqual("", o.name, o.ns, o.name);
    var key := FieldIndex.StoreKey(o.ns, o.name);
    var x := FieldIndex.Indexer(map[key := o], map[]);
    assert x.store[key] == o;
  }
}
