/** Repeated calls of Ensure over ready and idempotent operands settle (operator/v1/composite_operator.go). */
module EnsureConvergence {
  import opened Collections
  import opened Operands
  import opened Graphs
  import opened OperandDag
  import opened OperandDagOrder
  import opened Errors
  import opened Executor
  import opened Execution
  import opened CompositeOperators
  import opened Convergence

  /** What the operand requires and the order puts at an earlier step. */
  ghost function EarlierNeeds(co: CompositeOperator, op: Operand): set<Operand>
    requires WellFormed(co.graph)
  {
    set dep | && dep in co.operands && dep.name in op.needs && dep.name in Solution(co) && op.name in Solution(co)
              && Solution(co)[dep.name] < Solution(co)[op.name]
  }

  /** With a strict solution that is everything the operand requires. */
  lemma StrictNeedsAreEarlier(co: CompositeOperator, op: Operand, dep: Operand)
    requires Valid(co) && op in co.operands && op.name in Solution(co) && dep in co.operands && dep.name in op.needs
    requires Strict(co.graph, Solution(co))
    ensures dep in EarlierNeeds(co, op)
  {
    assert dep.name in co.graph.preds[op.name];
  }

  /** Where the work of the given operands is done, the hooks of the operand do not fail and find it ready,
      Ensure and PostReady do its work and undo nobody's, and when the work is done they change nothing and
      report no event. */
  ghost predicate ReadyAndIdempotent<W(!new)>(h: Hooks<W>, done: Progress<W>, before: set<Operand>, op: Operand) {
    forall w {:trigger h.ensure(op, w)} :: before <= done(w) ==>
      var first := h.ensure(op, w);
      var (postErr, w') := h.postReady(op, first.world);
      && first.err.None? && h.readyCheck(op, first.world) == (true, None) && postErr.None?
      && op in done(w') && done(w) <= done(w')
      && (op in done(w) ==> !first.event && w' == w)
  }

  lemma HooksSettle<W(!new)>(h: Hooks<W>, done: Progress<W>, before: set<Operand>, op: Operand)
    requires ReadyAndIdempotent(h, done, before, op)
    ensures Settling(CallEnsure(h), done, before, op)
  {
    forall w | before <= done(w)
      ensures var r := CallEnsure(h)(op, w);
              && r.err.None? && op in done(r.world) && done(w) <= done(r.world)
              && (op in done(w) ==> !r.event && r.world == w)
    {
      CallEnsureSucceedsIff(h, op, w);
    }
  }

  /** Every operand that has a step is ready and idempotent where what it requires at earlier steps is done. */
  ghost predicate OperandsSettle<W(!new)>(co: CompositeOperator, h: Hooks<W>, done: Progress<W>)
    requires WellFormed(co.graph)
  {
    forall op :: op in co.operands && op.name in Solution(co) ==> ReadyAndIdempotent(h, done, EarlierNeeds(co, op), op)
  }

  /** One call of Ensure on an operator that is not suspended may make the run and return this. */
  ghost predicate EnsureMay<W>(co: CompositeOperator, h: Hooks<W>, w: W, run: Executed<W>, result: CtrlResult,
                               err: Option<Error>) {
    MayExecute(co.strategy, co.order, CallEnsure(h), w, run) && EnsureReturns(co, run, result, err)
  }

  /** Calls of Ensure one after the other, each on the world that the one before left. */
  ghost predicate EnsureCalls<W>(co: CompositeOperator, h: Hooks<W>, w0: W, runs: seq<Executed<W>>,
                                 results: seq<CtrlResult>, errs: seq<Option<Error>>) {
    && |runs| == |results| == |errs|
    && forall k {:trigger StartOf(w0, runs, k)} :: 0 <= k < |runs| ==>
         EnsureMay(co, h, StartOf(w0, runs, k), runs[k], results[k], errs[k])
  }

  lemma StepsOfOperands(co: CompositeOperator, s: nat, op: Operand)
    requires Valid(co)
    ensures s < |co.order| && op in co.order[s] ==> op in co.operands
    ensures op in co.operands && Grounded(co.graph, op.name) ==> op in MembersUpTo(co.order, |co.order|)
  {
    if op in co.operands && Grounded(co.graph, op.name) {
      SolutionKeys(co.graph, |co.order|, op.name);
      var j := Solution(co)[op.name];
      assert op in co.order[j];
      MembersGrow(co.order, j, |co.order|);
    }
  }

  lemma {:induction false} AlwaysStepsBound(order: OperandOrder, n: nat)
    requires n <= |order|
    ensures AlwaysSteps(order, n) <= n
  {
    if n > 0 {
      AlwaysStepsBound(order, n - 1);
    }
  }

  lemma NeedsInEarlierSteps(co: CompositeOperator, op: Operand, s: nat)
    requires Valid(co) && s < |co.order| && op in co.order[s]
    ensures op in co.operands && op.name in Solution(co) && EarlierNeeds(co, op) <= MembersUpTo(co.order, s)
  {
    assert co.graph.values[op.name] in co.operands;
    forall dep | dep in EarlierNeeds(co, op) ensures dep in MembersUpTo(co.order, s) {
      var j := Solution(co)[dep.name];
      assert dep in co.order[j];
      MembersGrow(co.order, j, s);
    }
  }

  lemma MoreDone<W(!new)>(call: Behaviour<W>, done: Progress<W>, before: set<Operand>, more: set<Operand>, op: Operand)
    requires Settling(call, done, before, op) && before <= more
    ensures Settling(call, done, more, op)
  {
  }

  lemma OrderSettles<W(!new)>(co: CompositeOperator, h: Hooks<W>, done: Progress<W>, s: nat)
    requires Valid(co) && s < |co.order| && OperandsSettle(co, h, done)
    ensures AllSettling(CallEnsure(h), done, MembersUpTo(co.order, s), co.order[s])
  {
    var before := MembersUpTo(co.order, s);
    forall op | op in co.order[s] ensures Settling(CallEnsure(h), done, before, op) {
      NeedsInEarlierSteps(co, op, s);
      HooksSettle(h, done, EarlierNeeds(co, op), op);
      MoreDone(CallEnsure(h), done, EarlierNeeds(co, op), before, op);
    }
  }

  lemma CallConverges<W(!new)>(co: CompositeOperator, h: Hooks<W>, done: Progress<W>, w0: W, runs: seq<Executed<W>>,
                               results: seq<CtrlResult>, errs: seq<Option<Error>>, k: nat)
    requires !co.strategy.Unknown? && SettlingInOrder(CallEnsure(h), done, co.order)
    requires EnsureCalls(co, h, w0, runs, results, errs) && k < |runs|
    ensures errs[k].None? && results[k] == CtrlResult(runs[k].requeue, 0)
  {
    ExecutionConverges(co.strategy, CallEnsure(h), done, co.order, w0, runs, k);
    assert EnsureMay(co, h, StartOf(w0, runs, k), runs[k], results[k], errs[k]);
  }

  /** If operands are ready once what they require at earlier steps is done: no call of Ensure fails; calls
      in a row ask for a requeue at most once per requeue-always step, and so at most once per step; a call
      that asks for none leaves the work of every operand done that has no cycle on or before it, and the
      next one asks for none either and changes nothing. */
  lemma EnsureConverges<W(!new)>(co: CompositeOperator, h: Hooks<W>, done: Progress<W>, w0: W, runs: seq<Executed<W>>,
                                 results: seq<CtrlResult>, errs: seq<Option<Error>>, i: nat)
    requires Valid(co) && !co.strategy.Unknown? && OperandsSettle(co, h, done)
    requires EnsureCalls(co, h, w0, runs, results, errs) && i < |runs|
    ensures errs[i].None? && results[i].after == 0
    ensures (forall k :: 0 <= k <= i ==> results[k].requeue) ==> i < AlwaysSteps(co.order, |co.order|) <= |co.order|
    ensures !results[i].requeue ==>
              forall op :: op in co.operands && Grounded(co.graph, op.name) ==> op in done(runs[i].world)
    ensures !results[i].requeue && i + 1 < |runs| ==> !results[i + 1].requeue && runs[i + 1].world == runs[i].world
  {
    forall s | 0 <= s < |co.order| ensures AllSettling(CallEnsure(h), done, MembersUpTo(co.order, s), co.order[s]) {
      OrderSettles(co, h, done, s);
    }
    forall k | 0 <= k < |runs| ensures errs[k].None? && results[k] == CtrlResult(runs[k].requeue, 0) {
      CallConverges(co, h, done, w0, runs, results, errs, k);
    }
    ExecutionConverges(co.strategy, CallEnsure(h), done, co.order, w0, runs, i);
    AlwaysStepsBound(co.order, |co.order|);
    forall op | op in co.operands && Grounded(co.graph, op.name) ensures op in MembersUpTo(co.order, |co.order|) {
      StepsOfOperands(co, 0, op);
    }
  }
}
