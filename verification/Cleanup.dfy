/** Cleaning up the operands in reverse order (operator/v1/composite_operator.go, Cleanup). */
module Cleanups {
  import opened Collections
  import opened Operands
  import opened Graphs
  import opened OperandDag
  import opened OperandDagOrder
  import opened Errors
  import opened Executor
  import opened Goroutines
  import opened Execution
  import opened CompositeOperators

  method Cleanup<W>(co: CompositeOperator, suspended: bool, h: Hooks<W>, w0: W)
    returns (result: CtrlResult, err: Option<Error>, run: Executed<W>)
    ensures CleanupMay(co, suspended, h, w0, run)
    ensures result == CtrlResult(run.requeue, 0) && err == run.err
    ensures suspended ==> !result.requeue && err.None? && run.log == [] && run.world == w0
  {
    if suspended {
      return CtrlResult(false, 0), None, Skipped(w0);
    }
    var reversed := Reverse(co.order);
    run := ExecuteOperands(co.strategy, reversed, CallCleanup(h), w0);
    return CtrlResult(run.requeue, 0), run.err, run;
  }

  ghost predicate CleanupMay<W>(co: CompositeOperator, suspended: bool, h: Hooks<W>, w0: W, run: Executed<W>) {
    if suspended then run == Skipped(w0)
    else MayExecute(co.strategy, Reversed(co.order), CallCleanup(h), w0, run)
  }

  /** The executed steps deleted, without error, exactly the operands of the reversed order. */
  ghost predicate DeletedInReverse<W>(order: OperandOrder, log: seq<StepOutcome<W>>) {
    && |log| <= |order|
    && forall i :: 0 <= i < |log| ==>
         && multiset(OpsOf(log[i].calls)) == multiset(Reversed(order)[i])
         && forall k :: 0 <= k < |log[i].calls| ==> log[i].calls[k].err.None?
  }

  lemma CleanupDeletes<W>(co: CompositeOperator, h: Hooks<W>, w0: W, run: Executed<W>)
    requires CleanupMay(co, false, h, w0, run) && run.err.None?
    ensures DeletedInReverse(co.order, run.log)
  {
    forall i | 0 <= i < |run.log|
      ensures multiset(OpsOf(run.log[i].calls)) == multiset(Reversed(co.order)[i])
      ensures forall k :: 0 <= k < |run.log[i].calls| ==> run.log[i].calls[k].err.None?
    {
      NoStepFailed(StepsUnder(co.strategy, CallCleanup(h)), Reversed(co.order), w0, run, i);
      EarlierStepsSucceeded(co.strategy, Reversed(co.order), CallCleanup(h), w0, run.log, i);
    }
  }

  /** The cleanup came to step j of the order and the step was not lost in the middle. */
  predicate Reached<W>(order: OperandOrder, log: seq<StepOutcome<W>>, j: nat)
    requires j < |order|
  {
    |order| - 1 - j < |log| && !Middle(|order|, j)
  }

  lemma DeletedIffReached<W>(order: OperandOrder, log: seq<StepOutcome<W>>, j: nat, op: Operand)
    requires DeletedInReverse(order, log) && j < |order| && op in order[j]
    ensures CalledAt(log, |order| - 1 - j, op) <==> Reached(order, log, j)
    ensures SucceededAt(log, |order| - 1 - j, op) <==> Reached(order, log, j)
  {
    var i := |order| - 1 - j;
    if i < |log| {
      SameMembers(OpsOf(log[i].calls), Reversed(order)[i]);
      assert Middle(|order|, i) <==> Middle(|order|, j);
    }
  }

  /** The operands of a step have been deleted exactly when the cleanup reached the step. */
  ghost predicate DeletedExactly<W>(order: OperandOrder, log: seq<StepOutcome<W>>) {
    forall j, op {:trigger op in order[j]} :: 0 <= j < |order| && op in order[j] ==>
      && (SucceededAt(log, |order| - 1 - j, op) <==> Reached(order, log, j))
      && (CalledAt(log, |order| - 1 - j, op) <==> Reached(order, log, j))
  }

  ghost predicate EveryOperandDeleted<W>(order: OperandOrder, log: seq<StepOutcome<W>>) {
    forall j, op {:trigger op in order[j]} :: 0 <= j < |order| && op in order[j] ==>
        SucceededAt(log, |order| - 1 - j, op)
  }

  /** Every operand has been deleted exactly when the steps that were not reached hold no operand. */
  lemma AllDeletedIff<W>(order: OperandOrder, log: seq<StepOutcome<W>>)
    requires DeletedInReverse(order, log)
    ensures DeletedExactly(order, log)
    ensures EveryOperandDeleted(order, log) <==> forall j :: 0 <= j < |order| ==>
            Reached(order, log, j) || order[j] == []
  {
    forall j, op | 0 <= j < |order| && op in order[j]
      ensures SucceededAt(log, |order| - 1 - j, op) <==> Reached(order, log, j)
      ensures CalledAt(log, |order| - 1 - j, op) <==> Reached(order, log, j)
    {
      DeletedIffReached(order, log, j, op);
    }
    if j :| 0 <= j < |order| && !Reached(order, log, j) && order[j] != [] {
      assert order[j][0] in order[j];
    }
  }

  // ---------- every operand of the operator ----------

  ghost predicate Called<W>(log: seq<StepOutcome<W>>, op: Operand) {
    exists s: nat :: CalledAt(log, s, op)
  }

  ghost predicate Deleted<W>(log: seq<StepOutcome<W>>, op: Operand) {
    exists s: nat :: SucceededAt(log, s, op)
  }

  /** The operand has a step and the cleanup reached it. */
  ghost predicate StepReached<W>(co: CompositeOperator, log: seq<StepOutcome<W>>, op: Operand)
    requires WellFormed(co.graph)
  {
    op.name in Solution(co) && Solution(co)[op.name] < |co.order| && Reached(co.order, log, Solution(co)[op.name])
  }

  lemma CalledInReversed<W>(strategy: Strategy, order: OperandOrder, call: Behaviour<W>, w0: W, run: Executed<W>,
                            s: nat, op: Operand)
    requires MayExecute(strategy, order, call, w0, run) && CalledAt(run.log, s, op)
    ensures s < |order| && op in order[s]
  {
    assert StepsUnder(strategy, call)(order[s], WorldBefore(w0, run.log, s), run.log[s]);
    CalledInStep(strategy, order[s], call, WorldBefore(w0, run.log, s), run.log[s], op);
  }

  /** Whether it fails or not, a cleanup calls an operand only in the turn of its step, and never one
      that has no step or whose step is lost in the middle. */
  lemma CleanupCalls<W>(co: CompositeOperator, h: Hooks<W>, w0: W, run: Executed<W>, s: nat, op: Operand)
    requires Valid(co) && CleanupMay(co, false, h, w0, run) && CalledAt(run.log, s, op)
    ensures op in co.operands && StepReached(co, run.log, op) && s == |co.order| - 1 - Solution(co)[op.name]
  {
    CalledInReversed(co.strategy, Reversed(co.order), CallCleanup(h), w0, run, s, op);
    var j := |co.order| - 1 - s;
    assert op in co.order[j];
    assert Middle(|co.order|, s) <==> Middle(|co.order|, j);
  }

  /** No cleanup calls an operand that has no step or whose step is lost in the middle. */
  lemma NeverCalled<W>(co: CompositeOperator, h: Hooks<W>, w0: W, run: Executed<W>, op: Operand)
    requires Valid(co) && CleanupMay(co, false, h, w0, run)
    requires op.name in Solution(co) ==> Middle(|co.order|, Solution(co)[op.name])
    ensures !Called(run.log, op)
  {
    if s: nat :| CalledAt(run.log, s, op) {
      CleanupCalls(co, h, w0, run, s, op);
    }
  }

  /** With an odd number of steps no cleanup ever calls the operands of the middle one. */
  lemma MiddleStepLost<W>(co: CompositeOperator, h: Hooks<W>, w0: W, run: Executed<W>, op: Operand)
    requires Valid(co) && CleanupMay(co, false, h, w0, run)
    requires |co.order| % 2 == 1 && op in co.order[|co.order| / 2]
    ensures !Called(run.log, op)
  {
    NeverCalled(co, h, w0, run, op);
  }

  /** An operand of the operator was called exactly when it was deleted without error, and that is
      exactly when no cycle lies on or before it and the cleanup reached its step. */
  ghost predicate OperandsDeletedExactly<W>(co: CompositeOperator, log: seq<StepOutcome<W>>)
    requires WellFormed(co.graph)
  {
    forall op :: op in co.operands ==>
      && (Deleted(log, op) <==> Called(log, op))
      && (Deleted(log, op) <==> Grounded(co.graph, op.name) && StepReached(co, log, op))
  }

  ghost predicate AllOperandsDeleted<W>(co: CompositeOperator, log: seq<StepOutcome<W>>) {
    forall op :: op in co.operands ==> Deleted(log, op)
  }

  lemma OperandDeletedIff<W>(co: CompositeOperator, h: Hooks<W>, w0: W, run: Executed<W>, op: Operand)
    requires Valid(co) && CleanupMay(co, false, h, w0, run) && DeletedInReverse(co.order, run.log) && op in co.operands
    ensures Deleted(run.log, op) <==> Called(run.log, op)
    ensures Deleted(run.log, op) <==> Grounded(co.graph, op.name) && StepReached(co, run.log, op)
  {
    SolutionKeys(co.graph, |co.order|, op.name);
    if s: nat :| CalledAt(run.log, s, op) {
      CleanupCalls(co, h, w0, run, s, op);
    }
    if StepReached(co, run.log, op) {
      var j := Solution(co)[op.name];
      assert op in co.order[j];
      DeletedIffReached(co.order, run.log, j, op);
    }
  }

  /** Every operand of the operator was deleted exactly when its requirements have no cycle and the steps
      that were not reached hold no operand. */
  lemma AllOperandsDeletedIff<W>(co: CompositeOperator, log: seq<StepOutcome<W>>)
    requires Valid(co) && OperandsDeletedExactly(co, log)
    ensures AllOperandsDeleted(co, log) <==>
            Acyclic(co.graph) && forall j :: 0 <= j < |co.order| ==> Reached(co.order, log, j) || co.order[j] == []
  {
    AcyclicIffGrounded(co.graph);
    if AllOperandsDeleted(co, log) {
      forall v | v in co.graph.values ensures Grounded(co.graph, v) {
        assert Deleted(log, co.graph.values[v]);
      }
      forall j | 0 <= j < |co.order| && co.order[j] != [] ensures Reached(co.order, log, j) {
        var op := co.order[j][0];
        assert op in co.order[j];
        assert co.graph.values[op.name] in co.operands;
        assert Deleted(log, op);
      }
    } else {
      var op :| op in co.operands && !Deleted(log, op);
      SolutionKeys(co.graph, |co.order|, op.name);
      if Grounded(co.graph, op.name) {
        assert op in co.order[Solution(co)[op.name]];
      }
    }
  }

  /** After a cleanup that returned no error, the operands of a step have been deleted without error
      exactly when the cleanup reached the step. For an operator as it is made: an operand that was not
      deleted was not called at all, and those are exactly the ones with a cycle on or before them and
      the ones whose step was not reached. */
  lemma CleanupDeletesExactly<W>(co: CompositeOperator, h: Hooks<W>, w0: W, run: Executed<W>)
    requires CleanupMay(co, false, h, w0, run) && run.err.None?
    ensures DeletedExactly(co.order, run.log)
    ensures EveryOperandDeleted(co.order, run.log) <==>
            forall j :: 0 <= j < |co.order| ==> Reached(co.order, run.log, j) || co.order[j] == []
    ensures Valid(co) ==> OperandsDeletedExactly(co, run.log)
    ensures Valid(co) ==>
              (AllOperandsDeleted(co, run.log) <==>
                 Acyclic(co.graph) && forall j :: 0 <= j < |co.order| ==>
                     Reached(co.order, run.log, j) || co.order[j] == [])
  {
    CleanupDeletes(co, h, w0, run);
    AllDeletedIff(co.order, run.log);
    if Valid(co) {
      forall op | op in co.operands
        ensures Deleted(run.log, op) <==> Called(run.log, op)
        ensures Deleted(run.log, op) <==> Grounded(co.graph, op.name) && StepReached(co, run.log, op)
      {
        OperandDeletedIff(co, h, w0, run, op);
      }
      AllOperandsDeletedIff(co, run.log);
    }
  }

  /** No requeue-always step of the order before its last step reported a change. */
  ghost predicate NoEarlyRequeue<W>(order: OperandOrder, log: seq<StepOutcome<W>>)
    requires |log| <= |order|
  {
    forall i :: 0 <= i < |log| && i < |order| - 1 ==> !(log[i].changed && Always(order[i]))
  }

  /** Every step is come to exactly when no requeue-always step before the last reported a change. */
  lemma CleanupComplete<W>(co: CompositeOperator, h: Hooks<W>, w0: W, run: Executed<W>)
    requires CleanupMay(co, false, h, w0, run) && run.err.None?
    ensures |run.log| <= |co.order|
    ensures |run.log| == |co.order| <==> NoEarlyRequeue(Reversed(co.order), run.log)
  {
    CompleteIfNoRequeue(StepsUnder(co.strategy, CallCleanup(h)), Reversed(co.order), w0, run);
  }

  lemma CompleteIfNoRequeue<W>(may: StepRelation<W>, order: OperandOrder, w0: W, run: Executed<W>)
    requires Stepwise(may, order, w0, run) && run.err.None?
    ensures |run.log| <= |order|
    ensures |run.log| == |order| <==> NoEarlyRequeue(order, run.log)
  {
    if |run.log| < |order| {
      var i := |run.log| - 1;
      assert run.log[i].changed && Always(order[i]);
    }
  }

  /** Whether the cleanup fails or not: when an operand is called, the operands of every step whose turn
      came before, unless it was lost in the middle, have been deleted without error. */
  lemma LaterStepsFirst<W>(co: CompositeOperator, h: Hooks<W>, w0: W, run: Executed<W>, s: nat, dep: Operand,
                           k: nat, op: Operand)
    requires CleanupMay(co, false, h, w0, run) && CalledAt(run.log, s, dep)
    requires k < |co.order| && op in co.order[k] && |co.order| - 1 - k < s && !Middle(|co.order|, k)
    ensures SucceededAt(run.log, |co.order| - 1 - k, op)
  {
    EarlierTurn(co, h, w0, run, s, dep, |co.order| - 1 - k, op);
  }

  lemma EarlierTurn<W>(co: CompositeOperator, h: Hooks<W>, w0: W, run: Executed<W>, s: nat, dep: Operand, t: nat,
                       op: Operand)
    requires CleanupMay(co, false, h, w0, run) && CalledAt(run.log, s, dep)
    requires t < s && t < |co.order| && op in Reversed(co.order)[t]
    ensures SucceededAt(run.log, t, op)
  {
    EarlierInFull(co.strategy, Reversed(co.order), CallCleanup(h), w0, run.log, t, op);
  }

  /** Whether the cleanup fails or not: when an operand is called, an operand that requires it has been
      deleted without error at an earlier step, if it has a later step in the order that is not lost in the
      middle. With a strict solution it has a later step if it has one at all. */
  lemma DependentsFirst<W>(co: CompositeOperator, h: Hooks<W>, w0: W, run: Executed<W>, s: nat, dep: Operand,
                           op: Operand)
    returns (t: nat)
    requires Valid(co) && CleanupMay(co, false, h, w0, run) && CalledAt(run.log, s, dep)
    requires op in co.operands && dep.name in op.needs && Grounded(co.graph, op.name)
    ensures op.name in Solution(co) && dep.name in Solution(co)
    ensures s == |co.order| - 1 - Solution(co)[dep.name] && t == |co.order| - 1 - Solution(co)[op.name]
    ensures t <= s && (Strict(co.graph, Solution(co)) ==> t < s)
    ensures t < s && !Middle(|co.order|, t) ==> SucceededAt(run.log, t, op)
  {
    CleanupCalls(co, h, w0, run, s, dep);
    DependentStep(co, dep.name, op);
    t := |co.order| - 1 - Solution(co)[op.name];
    if t < s && !Middle(|co.order|, t) {
      EarlierTurn(co, h, w0, run, s, dep, t, op);
    }
  }

  lemma DependentStep(co: CompositeOperator, dep: Name, op: Operand)
    requires Valid(co) && op in co.operands && dep in op.needs && dep in Solution(co)
    ensures Grounded(co.graph, op.name) <==> op.name in Solution(co)
    ensures op.name in Solution(co) ==>
              var t := Solution(co)[op.name];
              && Solution(co)[dep] <= t < |co.order|
              && (!Middle(|co.order|, |co.order| - 1 - t) ==> op in Reversed(co.order)[|co.order| - 1 - t])
              && (Strict(co.graph, Solution(co)) ==> Solution(co)[dep] < t)
  {
    SolutionKeys(co.graph, |co.order|, op.name);
    if op.name in Solution(co) {
      assert dep in co.graph.preds[op.name];
      RequirementNotLater(co.graph, |co.order|, dep, op.name);
    }
  }
}
