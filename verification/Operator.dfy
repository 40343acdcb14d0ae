/** The composite operator: ordering, ensuring and cleaning up its operands (operator/v1/composite_operator.go). */
module CompositeOperators {
  import opened Collections
  import opened Operands
  import opened Graphs
  import opened OperandDag
  import opened OperandDagOrder
  import opened OperandDagBuild
  import opened Errors
  import opened Executor
  import opened Goroutines
  import opened Execution

  /** ctrl.Result: whether to requeue and after how long. */
  datatype CtrlResult = CtrlResult(requeue: bool, after: nat)

  datatype CompositeOperator = CompositeOperator(operands: seq<Operand>, graph: Graph, order: OperandOrder,
                                                 strategy: Strategy, retryPeriod: nat)

  /** The order is a layering of the graph of the operands by the finished solution. */
  ghost predicate Valid(co: CompositeOperator) {
    && WellFormed(co.graph) && Represents(co.operands, co.graph)
    && WalksEndBefore(co.graph, |co.order|)
    && (forall k :: 0 <= k < |co.order| ==> FrontierList(co.graph, k) != [])
    && Layered(co.graph, Solution(co), co.order)
  }

  ghost function Solution(co: CompositeOperator): Steps
    requires WellFormed(co.graph)
  {
    Solved(co.graph, |co.order|)
  }

  // ---------- construction ----------

  /** Operands that require one another in turn, starting from one that requires nothing. */
  ghost predicate SourceWalk(ops: seq<Operand>, c: seq<Operand>) {
    && c != [] && c[0].needs == []
    && (forall i :: 0 <= i < |c| ==> c[i] in ops)
    && forall i :: 0 < i < |c| ==> c[i - 1].name in c[i].needs
  }

  /** No cycle can be reached from an operand that requires nothing. */
  ghost predicate NoReachableCycle(ops: seq<Operand>) {
    forall c :: SourceWalk(ops, c) ==> NoDup(c)
  }

  lemma FirstMember(names: seq<Name>)
    requires names != []
    ensures exists p :: p in names
  {
    assert names[0] in names;
  }

  lemma WalksOfOperandsEnd(ops: seq<Operand>, g: Graph)
    requires WellFormed(g) && Represents(ops, g) && NoReachableCycle(ops)
    ensures exists n: nat :: WalksEndBefore(g, n)
  {
    forall c | IsWalk(g, c) ensures NoDup(c) {
      var d := seq(|c|, i requires 0 <= i < |c| => g.values[c[i]]);
      if d[0].needs != [] {
        FirstMember(d[0].needs);
      }
      assert SourceWalk(ops, d);
      forall i, j | 0 <= i < j < |c| ensures c[i] != c[j] {
        assert d[i] != d[j];
      }
    }
    WalksBounded(g);
  }

  method NewCompositeOperator(operands: seq<Operand>, hasRecorder: bool, strategy: Strategy, retryPeriod: nat,
                              refusesRepeats: bool)
    returns (r: Result<CompositeOperator>)
    requires NoReachableCycle(operands)
    ensures r.Ok? <==> hasRecorder && Buildable(operands, refusesRepeats)
    ensures r.Ok? ==> Valid(r.value) && r.value.operands == operands
    ensures r.Ok? ==> r.value.strategy == strategy && r.value.retryPeriod == retryPeriod
  {
    if !hasRecorder {
      return Err("EventRecorder must be provided to the CompositeOperator");
    }
    var built := NewOperandDAG(operands, refusesRepeats);
    if built.Err? {
      return Err(built.error);
    }
    WalksOfOperandsEnd(operands, built.value);
    var order, soln := Order(built.value);
    return Ok(CompositeOperator(operands, built.value, order, strategy, retryPeriod));
  }

  // ---------- ensure ----------

  /** The run that a suspended operator makes: none. */
  function Skipped<W>(w: W): Executed<W> {
    Executed(false, None, [], w)
  }

  method Ensure<W>(co: CompositeOperator, suspended: bool, h: Hooks<W>, w0: W)
    returns (result: CtrlResult, err: Option<Error>, run: Executed<W>)
    ensures suspended ==> result == CtrlResult(false, 0) && err.None? && run.log == [] && run.world == w0
    ensures suspended ==> run == Skipped(w0)
    ensures !suspended ==> MayExecute(co.strategy, co.order, CallEnsure(h), w0, run)
    ensures !suspended ==> EnsureReturns(co, run, result, err)
  {
    if suspended {
      return CtrlResult(false, 0), None, Skipped(w0);
    }
    run := ExecuteOperands(co.strategy, co.order, CallEnsure(h), w0);
    if run.err.Some? {
      if IsNotReady(run.err.value) {
        return CtrlResult(true, co.retryPeriod), None, run;
      }
      return CtrlResult(true, 0), run.err, run;
    }
    return CtrlResult(run.requeue, 0), None, run;
  }

  ghost predicate EnsureReturns<W>(co: CompositeOperator, run: Executed<W>, result: CtrlResult, err: Option<Error>) {
    if run.err.None? then err.None? && result == CtrlResult(run.requeue, 0)
    else if IsNotReady(run.err.value) then err.None? && result == CtrlResult(true, co.retryPeriod)
    else err == run.err && result == CtrlResult(true, 0)
  }

  /** Some call of the step failed with an error that has ErrNotReady itself at its root. */
  ghost predicate SomeNotReady(calls: seq<Call>) {
    exists i :: 0 <= i < |calls| && NotReadyCall(calls[i])
  }

  ghost predicate NotReadyCall(c: Call) {
    c.err.Some? && NotReady in Roots(c.err.value)
  }

  lemma NotReadyCallLeaf(c: Call)
    ensures (exists l :: l in CallLeaves(c) && IsNotReady(l)) <==> NotReadyCall(c)
  {
    if c.err.Some? {
      NotReadyLeaf(c.err.value);
      NotReadyRoot(c.err.value);
    }
  }

  lemma {:induction false} NotReadyCalls(calls: seq<Call>)
    ensures (exists l :: l in Total(calls, CallLeaves) && IsNotReady(l)) <==> SomeNotReady(calls)
  {
    if calls != [] {
      var head, rest := calls[0], calls[1..];
      NotReadyCalls(rest);
      NotReadyCallLeaf(head);
      assert Total(calls, CallLeaves) == CallLeaves(head) + Total(rest, CallLeaves);
      assert forall l :: l in Total(calls, CallLeaves) <==> l in CallLeaves(head) || l in Total(rest, CallLeaves);
      SomeNotReadyCons(calls);
    }
  }

  lemma SomeNotReadyCons(calls: seq<Call>)
    requires calls != []
    ensures SomeNotReady(calls) <==> NotReadyCall(calls[0]) || SomeNotReady(calls[1..])
  {
    if i :| 0 < i < |calls| && NotReadyCall(calls[i]) {
      assert calls[1..][i - 1] == calls[i];
    }
    if i :| 0 <= i < |calls[1..]| && NotReadyCall(calls[1..][i]) {
      assert calls[i + 1] == calls[1..][i];
    }
  }

  lemma {:induction false} SerialError<W>(ops: seq<Operand>, call: Behaviour<W>, w: W)
    ensures var out := SerialStep(ops, call, w);
            out.err.Some? ==> (IsNotReady(out.err.value) <==> SomeNotReady(out.calls))
    ensures var out := SerialStep(ops, call, w); out.err.None? ==> !SomeNotReady(out.calls)
  {
    if ops != [] {
      var r := call(ops[0], w);
      var out := SerialStep(ops, call, w);
      SomeNotReadyCons(out.calls);
      if r.err.Some? {
        assert out.calls[1..] == [] && [r.err.value][0] == r.err.value;
        NotReadyRoot(r.err.value);
      } else {
        SerialError(ops[1..], call, r.world);
        assert out.calls[1..] == SerialStep(ops[1..], call, r.world).calls;
      }
    }
  }

  lemma StepNotReady<W>(strategy: Strategy, ops: seq<Operand>, call: Behaviour<W>, w: W, out: StepOutcome<W>)
    requires StepMay(strategy, ops, call, w, out) && out.err.Some?
    ensures IsNotReady(out.err.value) <==> SomeNotReady(out.calls)
  {
    if strategy == Serial {
      SerialError(ops, call, w);
    } else {
      NotReadyLeaf(out.err.value);
      NotReadyCalls(out.calls);
    }
  }

  /** A failed run is turned into a silent delayed retry exactly when, among the calls of the step that
      failed, some error has ErrNotReady at its root, whatever other errors the step had; any other failure
      is returned as it is, without a delay. */
  lemma SilentRetryIffNotReady<W>(co: CompositeOperator, h: Hooks<W>, w0: W, run: Executed<W>, result: CtrlResult,
                                  err: Option<Error>)
    requires !co.strategy.Unknown? && MayExecute(co.strategy, co.order, CallEnsure(h), w0, run) && run.err.Some?
    requires EnsureReturns(co, run, result, err)
    ensures run.log != []
    ensures err.None? <==> SomeNotReady(run.log[|run.log| - 1].calls)
    ensures result.requeue && (err.None? ==> result.after == co.retryPeriod)
    ensures err.Some? ==> err == run.err && result.after == 0
  {
    var n := |run.log|;
    StoppedAtLast(StepsUnder(co.strategy, CallEnsure(h)), co.order, w0, run);
    StepNotReady(co.strategy, co.order[n - 1], CallEnsure(h), WorldBefore(w0, run.log, n - 1), run.log[n - 1]);
  }

  lemma StoppedAtLast<W>(may: StepRelation<W>, order: OperandOrder, w0: W, run: Executed<W>)
    requires Stepwise(may, order, w0, run) && run.err.Some?
    ensures var n := |run.log|;
            && 0 < n <= |order|
            && may(order[n - 1], WorldBefore(w0, run.log, n - 1), run.log[n - 1])
            && run.log[n - 1].err == run.err && run.requeue
  {
  }

  // ---------- requirements first ----------

  /** Operand op was called at step s of the run. */
  ghost predicate CalledAt<W>(log: seq<StepOutcome<W>>, s: nat, op: Operand) {
    s < |log| && op in OpsOf(log[s].calls)
  }

  /** Operand op was called at step s of the run, and no call of the step failed. */
  ghost predicate SucceededAt<W>(log: seq<StepOutcome<W>>, s: nat, op: Operand) {
    CalledAt(log, s, op) && forall k :: 0 <= k < |log[s].calls| ==> log[s].calls[k].err.None?
  }

  lemma {:induction false} SerialCallsPrefix<W>(ops: seq<Operand>, call: Behaviour<W>, w: W)
    ensures var calls := SerialStep(ops, call, w).calls; |calls| <= |ops| && OpsOf(calls) == ops[..|calls|]
  {
    if ops != [] && call(ops[0], w).err.None? {
      SerialCallsPrefix(ops[1..], call, call(ops[0], w).world);
      var out, rest := SerialStep(ops, call, w), SerialStep(ops[1..], call, call(ops[0], w).world);
      assert OpsOf(out.calls) == [ops[0]] + OpsOf(rest.calls);
    }
  }

  /** A step calls operands of its own only. */
  lemma CalledInStep<W>(strategy: Strategy, ops: seq<Operand>, call: Behaviour<W>, w: W, out: StepOutcome<W>,
                        op: Operand)
    requires StepMay(strategy, ops, call, w, out) && op in OpsOf(out.calls)
    ensures op in ops
  {
    if strategy == Serial {
      SerialCallsPrefix(ops, call, w);
    } else {
      assert op in multiset(OpsOf(out.calls));
      assert op in multiset(ops);
    }
  }

  /** An earlier step was executed in full, without error. */
  lemma EarlierInFull<W>(strategy: Strategy, order: OperandOrder, call: Behaviour<W>, w0: W,
                         log: seq<StepOutcome<W>>, s: nat, op: Operand)
    requires Prefix(StepsUnder(strategy, call), order, w0, log) && s < |log| - 1 && op in order[s]
    ensures SucceededAt(log, s, op)
  {
    EarlierStepsSucceeded(strategy, order, call, w0, log, s);
    assert op in multiset(order[s]);
    assert op in multiset(OpsOf(log[s].calls));
  }

  /** When an operand is called, everything it requires that the order puts at an earlier step has
      been called without error; where the solution is strict that is everything it requires. */
  lemma RequirementsFirst<W>(co: CompositeOperator, call: Behaviour<W>, w0: W, log: seq<StepOutcome<W>>, s: nat,
                             op: Operand, dep: Operand)
    requires Valid(co) && Prefix(StepsUnder(co.strategy, call), co.order, w0, log)
    requires CalledAt(log, s, op) && dep.name in op.needs && dep in co.operands
    ensures op in co.operands && op.name in Solution(co) && Solution(co)[op.name] == s
    ensures dep.name in Solution(co) && Solution(co)[dep.name] <= s
    ensures Solution(co)[dep.name] < s ==> SucceededAt(log, Solution(co)[dep.name], dep)
    ensures Strict(co.graph, Solution(co)) ==> Solution(co)[dep.name] < s
  {
    var g, order := co.graph, co.order;
    assert StepsUnder(co.strategy, call)(order[s], WorldBefore(w0, log, s), log[s]);
    CalledInStep(co.strategy, order[s], call, WorldBefore(w0, log, s), log[s], op);
    assert op in order[s];
    assert dep.name in g.preds[op.name];
    RequirementNotLater(g, |order|, dep.name, op.name);
    var t := Solution(co)[dep.name];
    if t < s {
      assert dep in order[t];
      EarlierInFull(co.strategy, order, call, w0, log, t, dep);
    }
  }
}
