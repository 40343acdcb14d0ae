/** The reconciler over a composite operator: what removing the finalizer says about the operands
    (controller/composite/v1/reconcile.go:183-202 with operator/v1/composite_operator.go:182-190). */
module Finalization {
  import opened Operands
  import opened Graphs
  import opened Executor
  import opened Execution
  import opened CompositeOperators
  import opened Cleanups
  import opened HookCalls
  import Reconciler

  /** The pass goes on to remove the finalizer exactly when the operator's cleanup returned no error, be it
      with a requeue; and that is exactly when every Delete it called returned none. A suspended operator has
      then deleted nothing. Otherwise the operands of exactly the steps that were reached are deleted. Of all
      operands of an operator as it is made, those that were not deleted were never called, and they are the
      ones with a cycle on or before them and the ones of steps that were not reached; so all are deleted if
      there is no cycle, the number of steps is even and no requeue-always step reported a change before the
      last one. */
  lemma FinalizerRemoved<W>(c: Reconciler.Config, s: Reconciler.Sys, co: CompositeOperator, suspended: bool,
                            h: Hooks<W>, w0: W, run: Executed<W>)
    requires CleanupMay(co, suspended, h, w0, run)
    requires Reconciler.Enabled(c, s, Reconciler.Cleanup(run.err.None?))
    ensures Reconciler.Next(c, s, Reconciler.Cleanup(run.err.None?)).pc.PutRemove? <==> run.err.None?
    ensures suspended ==> run.err.None? && run.log == [] && run.world == w0
    ensures !suspended ==>
              && Answered(h.delete, w0, CallsOf(run), run.world)
              && (run.err.None? <==> Runs(co.strategy, co.order) && DeletesSucceeded(h, w0, CallsOf(run)))
    ensures run.err.None? && !suspended ==>
              && DeletedExactly(co.order, run.log)
              && (EveryOperandDeleted(co.order, run.log) <==>
                    forall j :: 0 <= j < |co.order| ==> Reached(co.order, run.log, j) || co.order[j] == [])
    ensures run.err.None? && !suspended ==>
              && |run.log| <= |co.order|
              && (NoEarlyRequeue(Reversed(co.order), run.log) <==> |run.log| == |co.order|)
              && (|co.order| % 2 == 0 && NoEarlyRequeue(Reversed(co.order), run.log) ==>
                   EveryOperandDeleted(co.order, run.log))
    ensures run.err.None? && !suspended && Valid(co) ==>
              && OperandsDeletedExactly(co, run.log)
              && (AllOperandsDeleted(co, run.log) <==>
                    Acyclic(co.graph) && forall j :: 0 <= j < |co.order| ==>
                        Reached(co.order, run.log, j) || co.order[j] == [])
              && (Acyclic(co.graph) && |co.order| % 2 == 0 && |run.log| == |co.order| ==>
                   AllOperandsDeleted(co, run.log))
  {
    if !suspended {
      CleanupAnswered(co, h, w0, run);
    }
    if run.err.None? && !suspended {
      CleanupDeletesExactly(co, h, w0, run);
      CleanupComplete(co, h, w0, run);
    }
  }

  // ---------- over every run of the reconciler ----------

  /** One call of the operator's Cleanup: whether it was suspended, the world it found, the run it made. */
  datatype CleanupCall<W> = CleanupCall(suspended: bool, world: W, run: Executed<W>)

  ghost predicate MayCall<W>(co: CompositeOperator, h: Hooks<W>, d: CleanupCall<W>) {
    CleanupMay(co, d.suspended, h, d.world, d.run)
  }

  /** The cleanups of the reconciler are calls of the operator's Cleanup. */
  ghost predicate CleanedBy<W>(co: CompositeOperator, h: Hooks<W>, moves: seq<Reconciler.Move>,
                               calls: seq<CleanupCall<W>>) {
    && |calls| == |moves|
    && forall n :: 0 <= n < |moves| && moves[n].Cleanup? ==>
         MayCall(co, h, calls[n]) && moves[n].ok == calls[n].run.err.None?
  }

  lemma {:induction false} SuccessfulMove(c: Reconciler.Config, run: seq<Reconciler.Sys>,
                                          moves: seq<Reconciler.Move>, n: nat)
    returns (m: nat)
    requires Reconciler.Run(c, run, moves) && n < |run| && Reconciler.CleanupSucceeded(run[n])
    ensures m < n && moves[m] == Reconciler.Cleanup(true) && Reconciler.Enabled(c, run[m], moves[m])
    decreases n
  {
    var k :| 0 <= k < |run[n].events| && run[n].events[k].CleanedUp? && run[n].events[k].ok;
    var s, move := run[n - 1], moves[n - 1];
    assert run[n] == Reconciler.Next(c, s, move);
    if move == Reconciler.Cleanup(true) {
      m := n - 1;
    } else {
      assert run[n].events[k] == s.events[k];
      m := SuccessfulMove(c, run, moves, n - 1);
    }
  }

  /** What a call of Cleanup without an error deleted. */
  ghost predicate Deletes<W>(co: CompositeOperator, h: Hooks<W>, d: CleanupCall<W>)
    requires Valid(co)
  {
    && d.run.err.None?
    && (d.suspended ==> d.run.log == [])
    && (!d.suspended ==>
          && Answered(h.delete, d.world, CallsOf(d.run), d.run.world)
          && DeletesSucceeded(h, d.world, CallsOf(d.run))
          && OperandsDeletedExactly(co, d.run.log)
          && |d.run.log| <= |co.order|
          && (Acyclic(co.graph) && |co.order| % 2 == 0 && NoEarlyRequeue(Reversed(co.order), d.run.log) ==>
                AllOperandsDeleted(co, d.run.log)))
  }

  lemma CallDeletes<W>(co: CompositeOperator, h: Hooks<W>, d: CleanupCall<W>)
    requires Valid(co) && MayCall(co, h, d) && d.run.err.None?
    ensures Deletes(co, h, d)
  {
    if !d.suspended {
      CleanupAnswered(co, h, d.world, d.run);
      CleanupDeletesExactly(co, h, d.world, d.run);
      CleanupComplete(co, h, d.world, d.run);
    }
  }

  /** If nobody else strips the finalizer: by the time an object is gone on which Operate ran under
      finalizer cleanup, some call of the operator's Cleanup returned no error. Unless it was suspended, it
      deleted exactly the operands that have no cycle on or before them and whose step it reached, and
      called no other; that is every operand if there is no cycle, the number of steps is even and no
      requeue-always step reported a change before the last one. */
  lemma GoneAfterDeletion<W>(c: Reconciler.Config, run: seq<Reconciler.Sys>, moves: seq<Reconciler.Move>,
                             n: nat, k: nat,
                             co: CompositeOperator, h: Hooks<W>, calls: seq<CleanupCall<W>>)
    returns (m: nat)
    requires c.strategy == Reconciler.FinalizerCleanup && Reconciler.Run(c, run, moves) && n < |run|
    requires forall i :: 0 <= i < |moves| ==> Reconciler.Respects(c, run[i], moves[i])
    requires k < |run[n].events| && run[n].events[k].Operated? && !run[n].alive
    requires Valid(co) && CleanedBy(co, h, moves, calls)
    ensures m < n && moves[m] == Reconciler.Cleanup(true) && Deletes(co, h, calls[m])
  {
    Reconciler.GoneOnlyAfterCleanup(c, run, moves, n, k);
    m := SuccessfulMove(c, run, moves, n);
    CallDeletes(co, h, calls[m]);
  }
}
