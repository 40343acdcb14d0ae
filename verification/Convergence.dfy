/** Repeated runs over idempotent operands settle (operator/v1/composite_operator.go, Ensure). */
module Convergence {
  import opened Collections
  import opened Operands
  import opened Executor
  import opened Goroutines
  import opened Execution

  /** The operands whose work is done in a world. */
  type Progress<!W> = W -> set<Operand>

  ghost function Members(ops: seq<Operand>): set<Operand> {
    set op | op in ops
  }

  /** The operands of the first n steps. */
  ghost function MembersUpTo(order: OperandOrder, n: nat): set<Operand>
    requires n <= |order|
  {
    if n == 0 then {} else MembersUpTo(order, n - 1) + Members(order[n - 1])
  }

  /** The operand is ready and idempotent where the work of the given operands is done: a call does not
      fail and does its work, it undoes nobody's work, and it changes nothing when the work is done. */
  ghost predicate Settling<W(!new)>(call: Behaviour<W>, done: Progress<W>, before: set<Operand>, op: Operand) {
    forall w {:trigger call(op, w)} :: before <= done(w) ==>
      && call(op, w).err.None?
      && op in done(call(op, w).world)
      && done(w) <= done(call(op, w).world)
      && (op in done(w) ==> !call(op, w).event && call(op, w).world == w)
  }

  ghost predicate AllSettling<W(!new)>(call: Behaviour<W>, done: Progress<W>, before: set<Operand>, ops: seq<Operand>) {
    forall op :: op in ops ==> Settling(call, done, before, op)
  }

  /** What a step does over settling operands. */
  ghost predicate StepSettles<W>(done: Progress<W>, ops: seq<Operand>, w: W, out: StepOutcome<W>) {
    && out.err.None?
    && done(w) + Members(ops) <= done(out.world)
    && (Members(ops) <= done(w) ==> !out.changed && out.world == w)
  }

  lemma {:induction false} CallsSettle<W(!new)>(call: Behaviour<W>, done: Progress<W>, before: set<Operand>,
                                                ops: seq<Operand>, w: W)
    requires AllSettling(call, done, before, ops) && before <= done(w)
    ensures var (calls, w') := CallAll(ops, call, w);
            && (forall i :: 0 <= i < |calls| ==> calls[i].err.None?)
            && done(w) + Members(ops) <= done(w')
            && (Members(ops) <= done(w) ==> w' == w && forall i :: 0 <= i < |calls| ==> !calls[i].event)
    decreases ops
  {
    if ops != [] {
      var r := call(ops[0], w);
      assert Settling(call, done, before, ops[0]);
      assert Members(ops) == {ops[0]} + Members(ops[1..]);
      CallsSettle(call, done, before, ops[1..], r.world);
    }
  }

  lemma {:induction false} SerialNeverFails<W(!new)>(call: Behaviour<W>, done: Progress<W>, before: set<Operand>,
                                                     ops: seq<Operand>, w: W)
    requires AllSettling(call, done, before, ops) && before <= done(w)
    ensures SerialStep(ops, call, w).err.None?
    decreases ops
  {
    if ops != [] {
      assert Settling(call, done, before, ops[0]);
      SerialNeverFails(call, done, before, ops[1..], call(ops[0], w).world);
    }
  }

  lemma StepUnderSettles<W(!new)>(strategy: Strategy, call: Behaviour<W>, done: Progress<W>, before: set<Operand>,
                                  ops: seq<Operand>, w: W, out: StepOutcome<W>)
    requires AllSettling(call, done, before, ops) && before <= done(w) && StepsUnder(strategy, call)(ops, w, out)
    ensures StepSettles(done, ops, w, out)
  {
    if strategy == Serial {
      SerialNeverFails(call, done, before, ops, w);
      SerialIsConcurrent(ops, call, w);
    }
    var perm := OpsOf(out.calls);
    SameMembers(perm, ops);
    assert Members(perm) == Members(ops);
    CallsSettle(call, done, before, perm, w);
  }

  // ---------- runs over steps that settle ----------

  /** A step settles where the work of all earlier steps is done. */
  ghost predicate StepsSettle<W(!new)>(may: StepRelation<W>, done: Progress<W>, order: OperandOrder) {
    forall i, w, out {:trigger may(order[i], w, out)} ::
      0 <= i < |order| && MembersUpTo(order, i) <= done(w) && may(order[i], w, out) ==>
          StepSettles(done, order[i], w, out)
  }

  /** Each executed step is done afterwards and stays done. */
  lemma {:induction false} LogDone<W(!new)>(may: StepRelation<W>, done: Progress<W>, order: OperandOrder, w0: W,
                                            log: seq<StepOutcome<W>>, n: nat)
    requires StepsSettle(may, done, order) && Prefix(may, order, w0, log) && n <= |log|
    ensures MembersUpTo(order, n) <= done(WorldBefore(w0, log, n))
    decreases n
  {
    if n > 0 {
      LogDone(may, done, order, w0, log, n - 1);
      assert may(order[n - 1], WorldBefore(w0, log, n - 1), log[n - 1]);
    }
  }

  lemma {:induction false} MembersGrow(order: OperandOrder, i: nat, n: nat)
    requires i < n <= |order|
    ensures Members(order[i]) <= MembersUpTo(order, n)
    decreases n
  {
    if i < n - 1 {
      MembersGrow(order, i, n - 1);
    }
  }

  /** Steps that are done already pass unchanged. */
  lemma {:induction false} DonePasses<W(!new)>(may: StepRelation<W>, done: Progress<W>, order: OperandOrder, w0: W,
                                               log: seq<StepOutcome<W>>, n: nat, i: nat)
    requires StepsSettle(may, done, order) && Prefix(may, order, w0, log)
    requires n <= |order| && MembersUpTo(order, n) <= done(w0) && i < n && i < |log|
    ensures Clean(order[i], log[i]) && !log[i].changed && log[i].world == w0
    decreases i
  {
    if i > 0 {
      DonePasses(may, done, order, w0, log, n, i - 1);
    }
    assert WorldBefore(w0, log, i) == w0;
    MembersUpToGrow(order, i, n);
    MembersGrow(order, i, n);
  }

  lemma {:induction false} MembersUpToGrow(order: OperandOrder, m: nat, n: nat)
    requires m <= n <= |order|
    ensures MembersUpTo(order, m) <= MembersUpTo(order, n)
    decreases n
  {
    if m < n {
      MembersUpToGrow(order, m, n - 1);
    }
  }

  /** What a run does over settling operands: the steps it executed are done afterwards; it stops
      early only at a requeue-always step whose work, or that of an earlier step, was not done. */
  ghost predicate RunSettles<W>(done: Progress<W>, order: OperandOrder, w: W, e: Executed<W>) {
    && e.err.None? && |e.log| <= |order|
    && MembersUpTo(order, |e.log|) <= done(e.world)
    && (e.requeue ==> |e.log| > 0 && Always(order[|e.log| - 1]) && !(MembersUpTo(order, |e.log|) <= done(w)))
    && (!e.requeue ==> |e.log| == |order|)
    && (MembersUpTo(order, |order|) <= done(w) ==> e.world == w)
  }

  /** A run stops early only at a requeue-always step that reported a change. */
  lemma LastStep<W(!new)>(may: StepRelation<W>, done: Progress<W>, order: OperandOrder, w: W, e: Executed<W>)
    requires StepsSettle(may, done, order) && Stepwise(may, order, w, e)
    ensures e.err.None? && |e.log| <= |order|
    ensures e.requeue ==> |e.log| > 0 && Always(order[|e.log| - 1]) && e.log[|e.log| - 1].changed
    ensures !e.requeue ==> |e.log| == |order|
  {
    var n := |e.log|;
    if n > 0 {
      LogDone(may, done, order, w, e.log, n - 1);
      assert may(order[n - 1], WorldBefore(w, e.log, n - 1), e.log[n - 1]);
    }
  }

  lemma StepwiseSettles<W(!new)>(may: StepRelation<W>, done: Progress<W>, order: OperandOrder, w: W, e: Executed<W>)
    requires StepsSettle(may, done, order) && Stepwise(may, order, w, e)
    ensures RunSettles(done, order, w, e)
  {
    var n := |e.log|;
    LastStep(may, done, order, w, e);
    LogDone(may, done, order, w, e.log, n);
    MembersUpToGrow(order, n, |order|);
    if n > 0 && MembersUpTo(order, n) <= done(w) {
      DonePasses(may, done, order, w, e.log, n, n - 1);
    }
  }

  // ---------- runs in a row ----------

  /** The world a run starts from is the one the previous run left. */
  ghost function StartOf<W>(w0: W, runs: seq<Executed<W>>, i: nat): W
    requires i < |runs|
  {
    if i == 0 then w0 else runs[i - 1].world
  }

  ghost predicate AllSettle<W>(done: Progress<W>, order: OperandOrder, w0: W, runs: seq<Executed<W>>) {
    forall i {:trigger StartOf(w0, runs, i)} :: 0 <= i < |runs| ==>
        RunSettles(done, order, StartOf(w0, runs, i), runs[i])
  }

  /** A run that requeues after another one has gone further. */
  lemma GoesFurther<W>(done: Progress<W>, order: OperandOrder, w0: W, runs: seq<Executed<W>>, i: nat)
    requires AllSettle(done, order, w0, runs) && 0 < i < |runs|
    ensures runs[i].requeue ==> |runs[i - 1].log| < |runs[i].log|
  {
    assert RunSettles(done, order, StartOf(w0, runs, i - 1), runs[i - 1]);
    assert RunSettles(done, order, StartOf(w0, runs, i), runs[i]);
    if runs[i].requeue && |runs[i].log| <= |runs[i - 1].log| {
      MembersUpToGrow(order, |runs[i].log|, |runs[i - 1].log|);
    }
  }

  /** How many of the first n steps ask for a requeue on every change. */
  ghost function AlwaysSteps(order: OperandOrder, n: nat): nat
    requires n <= |order|
  {
    if n == 0 then 0 else AlwaysSteps(order, n - 1) + if Always(order[n - 1]) then 1 else 0
  }

  lemma {:induction false} AlwaysStepsGrow(order: OperandOrder, m: nat, n: nat)
    requires m <= n <= |order|
    ensures AlwaysSteps(order, m) <= AlwaysSteps(order, n)
    decreases n
  {
    if m < n {
      AlwaysStepsGrow(order, m, n - 1);
    }
  }

  /** A run in a row of requeues stops beyond as many requeue-always steps as there were requeues. */
  lemma {:induction false} RequeueCount<W>(done: Progress<W>, order: OperandOrder, w0: W, runs: seq<Executed<W>>,
                                           i: nat)
    requires AllSettle(done, order, w0, runs) && i < |runs|
    requires forall k :: 0 <= k <= i ==> runs[k].requeue
    ensures 0 < |runs[i].log| <= |order| && i < AlwaysSteps(order, |runs[i].log|)
    decreases i
  {
    assert RunSettles(done, order, StartOf(w0, runs, i), runs[i]);
    if i > 0 {
      RequeueCount(done, order, w0, runs, i - 1);
      GoesFurther(done, order, w0, runs, i);
      AlwaysStepsGrow(order, |runs[i - 1].log|, |runs[i].log| - 1);
    }
  }

  /** The operands of every step settle where the work of the earlier steps is done. */
  ghost predicate SettlingInOrder<W(!new)>(call: Behaviour<W>, done: Progress<W>, order: OperandOrder) {
    forall k :: 0 <= k < |order| ==> AllSettling(call, done, MembersUpTo(order, k), order[k])
  }

  /** With ready and idempotent operands there are fewer requeues in a row than there are
      requeue-always steps, or as many; a run without a requeue leaves the work of every operand done,
      and the run after it does not requeue and changes nothing. */
  lemma ExecutionConverges<W(!new)>(strategy: Strategy, call: Behaviour<W>, done: Progress<W>, order: OperandOrder,
                                    w0: W, runs: seq<Executed<W>>, i: nat)
    requires !strategy.Unknown? && SettlingInOrder(call, done, order)
    requires forall k {:trigger StartOf(w0, runs, k)} :: 0 <= k < |runs| ==>
            MayExecute(strategy, order, call, StartOf(w0, runs, k), runs[k])
    requires i < |runs|
    ensures runs[i].err.None?
    ensures (forall k :: 0 <= k <= i ==> runs[k].requeue) ==> i < AlwaysSteps(order, |order|)
    ensures !runs[i].requeue ==> MembersUpTo(order, |order|) <= done(runs[i].world)
    ensures !runs[i].requeue && i + 1 < |runs| ==> !runs[i + 1].requeue && runs[i + 1].world == runs[i].world
  {
    var may := StepsUnder(strategy, call);
    forall k, w, out | 0 <= k < |order| && MembersUpTo(order, k) <= done(w) && may(order[k], w, out)
      ensures StepSettles(done, order[k], w, out)
    {
      StepUnderSettles(strategy, call, done, MembersUpTo(order, k), order[k], w, out);
    }
    forall k | 0 <= k < |runs| ensures RunSettles(done, order, StartOf(w0, runs, k), runs[k]) {
      StepwiseSettles(may, done, order, StartOf(w0, runs, k), runs[k]);
    }
    RunsConverge(done, order, w0, runs, i);
  }

  lemma RunsConverge<W>(done: Progress<W>, order: OperandOrder, w0: W, runs: seq<Executed<W>>, i: nat)
    requires AllSettle(done, order, w0, runs) && i < |runs|
    ensures runs[i].err.None?
    ensures (forall k :: 0 <= k <= i ==> runs[k].requeue) ==> i < AlwaysSteps(order, |order|)
    ensures !runs[i].requeue ==> MembersUpTo(order, |order|) <= done(runs[i].world)
    ensures !runs[i].requeue && i + 1 < |runs| ==> !runs[i + 1].requeue && runs[i + 1].world == runs[i].world
  {
    assert RunSettles(done, order, StartOf(w0, runs, i), runs[i]);
    if forall k :: 0 <= k <= i ==> runs[k].requeue {
      RequeueCount(done, order, w0, runs, i);
      AlwaysStepsGrow(order, |runs[i].log|, |order|);
    }
    if !runs[i].requeue && i + 1 < |runs| {
      assert RunSettles(done, order, StartOf(w0, runs, i + 1), runs[i + 1]);
      MembersUpToGrow(order, |runs[i + 1].log|, |order|);
    }
  }
}
