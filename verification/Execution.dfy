/** Executing an order: steps one after the other until one fails or asks for a requeue
    (operator/v1/executor/executor.go, ExecuteOperands). */
module Execution {
  import opened Collections
  import opened Operands
  import opened Errors
  import opened Executor
  import opened Goroutines

  /** What ExecuteOperands returns, with the steps it executed and the world it leaves. */
  datatype Executed<W> = Executed(requeue: bool, err: Option<Error>, log: seq<StepOutcome<W>>, world: W)

  /** The step may come out like this under the strategy. */
  ghost predicate StepMay<W>(strategy: Strategy, ops: seq<Operand>, call: Behaviour<W>, w: W, out: StepOutcome<W>) {
    match strategy
    case Serial => out == SerialStep(ops, call, w)
    case Parallel => ConcurrentStep(ops, call, w, out)
    case Unknown(_) => false
  }

  ghost predicate Always(ops: seq<Operand>) {
    exists i :: 0 <= i < |ops| && ops[i].requeue == RequeueAlways
  }

  /** The step neither failed nor reported a change that asks for a requeue. */
  ghost predicate Clean<W>(ops: seq<Operand>, out: StepOutcome<W>) {
    out.err.None? && !(out.changed && Always(ops))
  }

  ghost function WorldBefore<W>(w0: W, log: seq<StepOutcome<W>>, i: nat): W
    requires i <= |log|
  {
    if i == 0 then w0 else log[i - 1].world
  }

  /** How a step may come out: its operands, the world before it, its outcome. */
  type StepRelation<!W> = (seq<Operand>, W, StepOutcome<W>) -> bool

  ghost function StepsUnder<W>(strategy: Strategy, call: Behaviour<W>): StepRelation<W> {
    (ops, w, out) => StepMay(strategy, ops, call, w, out)
  }

  /** The executed steps are a prefix of the order; only the last of them may not be clean. */
  ghost predicate Prefix<W>(may: StepRelation<W>, order: OperandOrder, w0: W, log: seq<StepOutcome<W>>) {
    && |log| <= |order|
    && (forall i {:trigger WorldBefore(w0, log, i)} :: 0 <= i < |log| ==>
         may(order[i], WorldBefore(w0, log, i), log[i]))
    && (forall i :: 0 <= i < |log| - 1 ==> Clean(order[i], log[i]))
  }

  /** The steps run until one is not clean. */
  ghost predicate Stepwise<W>(may: StepRelation<W>, order: OperandOrder, w0: W, e: Executed<W>) {
    && Prefix(may, order, w0, e.log)
    && e.world == WorldBefore(w0, e.log, |e.log|)
    && if |e.log| == 0 then |order| == 0 && !e.requeue && e.err.None?
       else
         var last, ops := e.log[|e.log| - 1], order[|e.log| - 1];
         && (|e.log| < |order| ==> !Clean(ops, last))
         && e.err == last.err
         && (e.requeue <==> !Clean(ops, last))
  }

  ghost predicate MayExecute<W>(strategy: Strategy, order: OperandOrder, call: Behaviour<W>, w0: W, e: Executed<W>) {
    if strategy.Unknown? && |order| > 0 then
      !e.requeue && e.err.Some? && |e.log| == 0 && e.world == w0
    else
      Stepwise(StepsUnder(strategy, call), order, w0, e)
  }

  /** Every step so far was clean. */
  ghost predicate Going<W>(may: StepRelation<W>, order: OperandOrder, w0: W, log: seq<StepOutcome<W>>) {
    Prefix(may, order, w0, log) && forall i :: 0 <= i < |log| ==> Clean(order[i], log[i])
  }

  lemma Continues<W>(may: StepRelation<W>, order: OperandOrder, w0: W, log: seq<StepOutcome<W>>, out: StepOutcome<W>)
    requires Going(may, order, w0, log) && |log| < |order| && may(order[|log|], WorldBefore(w0, log, |log|), out)
    ensures Prefix(may, order, w0, log + [out])
    ensures Clean(order[|log|], out) ==> Going(may, order, w0, log + [out])
  {
    var log' := log + [out];
    forall i | 0 <= i < |log'| ensures may(order[i], WorldBefore(w0, log', i), log'[i]) {
      assert WorldBefore(w0, log', i) == WorldBefore(w0, log, i);
    }
  }

  lemma Stops<W>(may: StepRelation<W>, order: OperandOrder, w0: W, log: seq<StepOutcome<W>>, out: StepOutcome<W>)
    requires Going(may, order, w0, log) && |log| < |order| && may(order[|log|], WorldBefore(w0, log, |log|), out)
    requires !Clean(order[|log|], out)
    ensures Stepwise(may, order, w0, Executed(true, out.err, log + [out], out.world))
  {
    Continues(may, order, w0, log, out);
  }

  method ExecuteStep<W>(strategy: Strategy, ops: seq<Operand>, call: Behaviour<W>, w: W) returns (out: StepOutcome<W>)
    requires !strategy.Unknown?
    ensures StepsUnder(strategy, call)(ops, w, out)
  {
    match strategy {
      case Serial => out := SerialExec(ops, call, w);
      case Parallel => out := ConcurrentExec(ops, call, w);
    }
  }

  method ExecuteOperands<W>(strategy: Strategy, order: OperandOrder, call: Behaviour<W>, w0: W) returns (e: Executed<W>)
    ensures MayExecute(strategy, order, call, w0, e)
  {
    ghost var may := StepsUnder(strategy, call);
    var w, log := w0, [];
    for i := 0 to |order|
      invariant |log| == i && Going(may, order, w0, log) && w == WorldBefore(w0, log, |log|)
      invariant strategy.Unknown? ==> i == 0
    {
      var requeueStrategy := StepRequeueStrategy(order[i]);
      if strategy.Unknown? {
        return Executed(false, Some(Other("unknown operands execution strategy")), log, w);
      }
      var out := ExecuteStep(strategy, order[i], call, w);
      if out.err.Some? {
        Stops(may, order, w0, log, out);
        return Executed(true, out.err, log + [out], out.world);
      }
      if out.changed && requeueStrategy == RequeueAlways {
        Stops(may, order, w0, log, out);
        return Executed(true, None, log + [out], out.world);
      }
      Continues(may, order, w0, log, out);
      log, w := log + [out], out.world;
    }
    return Executed(false, None, log, w);
  }

  // ---------- what a run without a requeue says ----------

  lemma {:induction false} SerialPrefix<W>(ops: seq<Operand>, call: Behaviour<W>, w: W)
    ensures var out := SerialStep(ops, call, w);
            out.err.None? ==>
              && CallAll(ops, call, w) == (out.calls, out.world)
              && |out.calls| == |ops| && OpsOf(out.calls) == ops
              && (out.changed <==> exists i :: 0 <= i < |out.calls| && out.calls[i].event)
              && (forall i :: 0 <= i < |out.calls| ==> out.calls[i].err.None?)
  {
    if ops != [] {
      var r := call(ops[0], w);
      if r.err.None? {
        SerialPrefix(ops[1..], call, r.world);
        var out, rest := SerialStep(ops, call, w), SerialStep(ops[1..], call, r.world);
        if rest.err.None? {
          assert out.calls == [CallOf(ops[0], r)] + rest.calls;
          assert forall i :: 0 < i < |out.calls| ==> out.calls[i] == rest.calls[i - 1];
          if i :| 0 <= i < |rest.calls| && rest.calls[i].event {
            assert out.calls[i + 1].event;
          }
        }
      }
    }
  }

  /** A serial step that does not fail is one of the outcomes of the concurrent step. */
  lemma SerialIsConcurrent<W>(ops: seq<Operand>, call: Behaviour<W>, w: W)
    requires SerialStep(ops, call, w).err.None?
    ensures ConcurrentStep(ops, call, w, SerialStep(ops, call, w))
  {
    SerialPrefix(ops, call, w);
    TotalEmpty(SerialStep(ops, call, w).calls, CallLeaves);
  }

  /** A step is started only when every operand of every earlier step was called once, without error. */
  lemma EarlierStepsSucceeded<W>(strategy: Strategy, order: OperandOrder, call: Behaviour<W>, w0: W,
                                 log: seq<StepOutcome<W>>, i: nat)
    requires Prefix(StepsUnder(strategy, call), order, w0, log) && i < |log| && (i < |log| - 1 || log[i].err.None?)
    ensures multiset(OpsOf(log[i].calls)) == multiset(order[i])
    ensures forall k :: 0 <= k < |log[i].calls| ==> log[i].calls[k].err.None?
  {
    var w := WorldBefore(w0, log, i);
    assert log[i].err.None? && StepsUnder(strategy, call)(order[i], w, log[i]);
    if strategy == Serial {
      SerialIsConcurrent(order[i], call, w);
    }
  }

  /** In a run without an error no step failed. */
  lemma NoStepFailed<W>(may: StepRelation<W>, order: OperandOrder, w0: W, e: Executed<W>, i: nat)
    requires Stepwise(may, order, w0, e) && e.err.None? && i < |e.log|
    ensures Prefix(may, order, w0, e.log) && e.log[i].err.None?
  {
  }

  /** No requeue and no error exactly when every step ran and was clean. */
  lemma SettledIffAllClean<W>(may: StepRelation<W>, order: OperandOrder, w0: W, e: Executed<W>)
    requires Stepwise(may, order, w0, e)
    ensures !e.requeue && e.err.None? <==>
            && |e.log| == |order|
            && forall i :: 0 <= i < |order| ==>
                 && e.log[i].err.None?
                 && !(e.log[i].changed && exists j :: 0 <= j < |order[i]| && order[i][j].requeue == RequeueAlways)
  {
  }
}
