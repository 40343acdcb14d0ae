/** The calls of a run are what the operands answered: each one on the world that the answers before it
    left (operator/v1/operand/operand.go, CallEnsure and CallCleanup, under executor.go, ExecuteOperands). */
module HookCalls {
  import opened Collections
  import opened Operands
  import opened Errors
  import opened Executor
  import opened Goroutines
  import opened Execution
  import opened CompositeOperators
  import opened Cleanups

  /** The world after the first k calls, when each was answered on the world that the one before left. */
  ghost function WorldAfter<W>(reply: Behaviour<W>, w0: W, calls: seq<Call>, k: nat): W
    requires k <= |calls|
  {
    if k == 0 then w0 else reply(calls[k - 1].op, WorldAfter(reply, w0, calls, k - 1)).world
  }

  /** Call k returned the event and the error of the reply on the world that the replies before left. */
  ghost predicate Returned<W>(reply: Behaviour<W>, w0: W, calls: seq<Call>, k: nat)
    requires k < |calls|
  {
    var r := reply(calls[k].op, WorldAfter(reply, w0, calls, k));
    calls[k].event == r.event && calls[k].err == r.err
  }

  /** Every call returned what the reply was, and the last reply left the world. */
  ghost predicate Answered<W>(reply: Behaviour<W>, w0: W, calls: seq<Call>, world: W) {
    && world == WorldAfter(reply, w0, calls, |calls|)
    && forall k {:trigger Returned(reply, w0, calls, k)} :: 0 <= k < |calls| ==> Returned(reply, w0, calls, k)
  }

  lemma {:induction false} WorldAfterPrefix<W>(reply: Behaviour<W>, w0: W, a: seq<Call>, b: seq<Call>, k: nat)
    requires k <= |a|
    ensures WorldAfter(reply, w0, a + b, k) == WorldAfter(reply, w0, a, k)
    decreases k
  {
    if k > 0 {
      WorldAfterPrefix(reply, w0, a, b, k - 1);
    }
  }

  lemma {:induction false} WorldAfterSuffix<W>(reply: Behaviour<W>, w0: W, a: seq<Call>, b: seq<Call>, k: nat)
    requires k <= |b|
    ensures WorldAfter(reply, w0, a + b, |a| + k) == WorldAfter(reply, WorldAfter(reply, w0, a, |a|), b, k)
    decreases k
  {
    if k == 0 {
      WorldAfterPrefix(reply, w0, a, b, |a|);
    } else {
      WorldAfterSuffix(reply, w0, a, b, k - 1);
      assert (a + b)[|a| + k - 1] == b[k - 1];
    }
  }

  lemma FirstReturned<W>(reply: Behaviour<W>, w0: W, a: seq<Call>, b: seq<Call>, k: nat)
    requires k < |a| && Returned(reply, w0, a, k)
    ensures Returned(reply, w0, a + b, k)
  {
    WorldAfterPrefix(reply, w0, a, b, k);
    assert (a + b)[k] == a[k];
  }

  lemma SecondReturned<W>(reply: Behaviour<W>, w0: W, a: seq<Call>, w1: W, b: seq<Call>, k: nat)
    requires k < |b| && w1 == WorldAfter(reply, w0, a, |a|) && Returned(reply, w1, b, k)
    ensures Returned(reply, w0, a + b, |a| + k)
  {
    WorldAfterSuffix(reply, w0, a, b, k);
    assert (a + b)[|a| + k] == b[k];
  }

  lemma AnsweredConcat<W>(reply: Behaviour<W>, w0: W, a: seq<Call>, w1: W, b: seq<Call>, w2: W)
    requires Answered(reply, w0, a, w1) && Answered(reply, w1, b, w2)
    ensures Answered(reply, w0, a + b, w2)
  {
    var c := a + b;
    forall k | 0 <= k < |c| ensures Returned(reply, w0, c, k) {
      if k < |a| {
        FirstReturned(reply, w0, a, b, k);
      } else {
        SecondReturned(reply, w0, a, w1, b, k - |a|);
      }
    }
    WorldAfterSuffix(reply, w0, a, b, |b|);
  }

  // ---------- a step ----------

  lemma {:induction false} CallAllAnswered<W>(ops: seq<Operand>, call: Behaviour<W>, w: W)
    ensures Answered(call, w, CallAll(ops, call, w).0, CallAll(ops, call, w).1)
    decreases ops
  {
    if ops != [] {
      var r := call(ops[0], w);
      var (calls, w') := CallAll(ops[1..], call, r.world);
      CallAllAnswered(ops[1..], call, r.world);
      var first := [CallOf(ops[0], r)];
      assert WorldAfter(call, w, first, 0) == w && WorldAfter(call, w, first, 1) == r.world;
      AnsweredConcat(call, w, first, r.world, calls, w');
    }
  }

  /** A serial step that fails made the calls up to the first that failed, whose error it returns. */
  lemma {:induction false} SerialFailure<W>(ops: seq<Operand>, call: Behaviour<W>, w: W)
    ensures var out := SerialStep(ops, call, w);
            && |out.calls| <= |ops| && CallAll(ops[..|out.calls|], call, w) == (out.calls, out.world)
            && (out.err.Some? ==>
                  && out.calls != [] && out.calls[|out.calls| - 1].err.Some?
                  && out.err == Some(Aggregate([out.calls[|out.calls| - 1].err.value]))
                  && forall k :: 0 <= k < |out.calls| - 1 ==> out.calls[k].err.None?)
    decreases ops
  {
    if ops != [] {
      var r := call(ops[0], w);
      var out := SerialStep(ops, call, w);
      var n := |out.calls|;
      if r.err.Some? {
        assert ops[..1][0] == ops[0] && ops[..1][1..] == [];
        assert CallAll(ops[..1][1..], call, r.world) == ([], r.world);
        assert CallAll(ops[..1], call, w) == ([CallOf(ops[0], r)] + [], r.world);
        assert [CallOf(ops[0], r)] + [] == [CallOf(ops[0], r)];
      } else {
        SerialFailure(ops[1..], call, r.world);
        var rest := SerialStep(ops[1..], call, r.world);
        assert ops[..n][0] == ops[0] && ops[..n][1..] == ops[1..][..n - 1];
        assert out.calls == [CallOf(ops[0], r)] + rest.calls && out.world == rest.world;
        assert CallAll(ops[..n], call, w) == (out.calls, out.world);
        if out.err.Some? {
          assert rest.calls[n - 2] == out.calls[n - 1];
        }
      }
    }
  }

  lemma StepAnswered<W>(strategy: Strategy, ops: seq<Operand>, call: Behaviour<W>, w: W, out: StepOutcome<W>)
    requires StepMay(strategy, ops, call, w, out)
    ensures Answered(call, w, out.calls, out.world)
    ensures out.err.Some? <==> exists k :: 0 <= k < |out.calls| && out.calls[k].err.Some?
  {
    if strategy == Serial {
      SerialFailure(ops, call, w);
      CallAllAnswered(ops[..|out.calls|], call, w);
      SerialPrefix(ops, call, w);
    } else {
      CallAllAnswered(OpsOf(out.calls), call, w);
    }
  }

  // ---------- a run ----------

  /** The calls of the first n steps, one after the other. */
  ghost function CallsUpTo<W>(log: seq<StepOutcome<W>>, n: nat): seq<Call>
    requires n <= |log|
  {
    if n == 0 then [] else CallsUpTo(log, n - 1) + log[n - 1].calls
  }

  ghost function CallsOf<W>(run: Executed<W>): seq<Call> {
    CallsUpTo(run.log, |run.log|)
  }

  lemma {:induction false} StepsAnswered<W>(strategy: Strategy, order: OperandOrder, call: Behaviour<W>, w0: W,
                                            log: seq<StepOutcome<W>>, n: nat)
    requires Prefix(StepsUnder(strategy, call), order, w0, log) && n <= |log|
    ensures Answered(call, w0, CallsUpTo(log, n), WorldBefore(w0, log, n))
    decreases n
  {
    if n > 0 {
      StepsAnswered(strategy, order, call, w0, log, n - 1);
      var w := WorldBefore(w0, log, n - 1);
      assert StepsUnder(strategy, call)(order[n - 1], w, log[n - 1]);
      StepAnswered(strategy, order[n - 1], call, w, log[n - 1]);
      AnsweredConcat(call, w0, CallsUpTo(log, n - 1), w, log[n - 1].calls, log[n - 1].world);
    }
  }

  /** Call k of step s is one of the calls of the run. */
  lemma {:induction false} CallInRun<W>(log: seq<StepOutcome<W>>, n: nat, s: nat, k: nat) returns (j: nat)
    requires s < n <= |log| && k < |log[s].calls|
    ensures j < |CallsUpTo(log, n)| && CallsUpTo(log, n)[j] == log[s].calls[k]
    decreases n
  {
    if s == n - 1 {
      j := |CallsUpTo(log, n - 1)| + k;
    } else {
      j := CallInRun(log, n - 1, s, k);
    }
  }

  lemma {:induction false} StepOfCall<W>(log: seq<StepOutcome<W>>, n: nat, j: nat) returns (s: nat, k: nat)
    requires n <= |log| && j < |CallsUpTo(log, n)|
    ensures s < n && k < |log[s].calls| && CallsUpTo(log, n)[j] == log[s].calls[k]
    decreases n
  {
    var before := |CallsUpTo(log, n - 1)|;
    if j >= before {
      s, k := n - 1, j - before;
    } else {
      s, k := StepOfCall(log, n - 1, j);
    }
  }

  ghost predicate SomeFailed(calls: seq<Call>) {
    exists k :: 0 <= k < |calls| && calls[k].err.Some?
  }

  lemma RunFailed<W>(strategy: Strategy, order: OperandOrder, call: Behaviour<W>, w0: W, run: Executed<W>)
    requires Stepwise(StepsUnder(strategy, call), order, w0, run)
    ensures run.err.Some? <==> SomeFailed(CallsOf(run))
  {
    var n := |run.log|;
    if run.err.Some? {
      var w := WorldBefore(w0, run.log, n - 1);
      assert StepsUnder(strategy, call)(order[n - 1], w, run.log[n - 1]);
      StepAnswered(strategy, order[n - 1], call, w, run.log[n - 1]);
      var k: nat :| 0 <= k < |run.log[n - 1].calls| && run.log[n - 1].calls[k].err.Some?;
      var j := CallInRun(run.log, n, n - 1, k);
    } else if j: nat :| 0 <= j < |CallsOf(run)| && CallsOf(run)[j].err.Some? {
      var s, k := StepOfCall(run.log, n, j);
      NoStepFailed(StepsUnder(strategy, call), order, w0, run, s);
      var w := WorldBefore(w0, run.log, s);
      assert StepsUnder(strategy, call)(order[s], w, run.log[s]);
      StepAnswered(strategy, order[s], call, w, run.log[s]);
    }
  }

  /** The run calls operands, not an unknown strategy's nothing. */
  predicate Runs(strategy: Strategy, order: OperandOrder) {
    strategy.Unknown? ==> order == []
  }

  /** Every call of a run returns what the operand answered on the world that the answers before it left,
      the run leaves the world of the last answer, and it fails exactly when one of the answers did (or the
      strategy is unknown). */
  lemma RunAnswered<W>(strategy: Strategy, order: OperandOrder, call: Behaviour<W>, w0: W, run: Executed<W>)
    requires MayExecute(strategy, order, call, w0, run)
    ensures Answered(call, w0, CallsOf(run), run.world)
    ensures run.err.None? <==> Runs(strategy, order) && !SomeFailed(CallsOf(run))
  {
    if Runs(strategy, order) {
      StepsAnswered(strategy, order, call, w0, run.log, |run.log|);
      RunFailed(strategy, order, call, w0, run);
    }
  }

  // ---------- the hooks ----------

  lemma {:induction false} DeleteWorlds<W>(h: Hooks<W>, w0: W, calls: seq<Call>, k: nat)
    requires k <= |calls|
    ensures WorldAfter(CallCleanup(h), w0, calls, k) == WorldAfter(h.delete, w0, calls, k)
    decreases k
  {
    if k > 0 {
      DeleteWorlds(h, w0, calls, k - 1);
    }
  }

  /** No Delete of the calls failed, on the worlds that the Deletes before left. */
  ghost predicate DeletesSucceeded<W>(h: Hooks<W>, w0: W, calls: seq<Call>) {
    forall k :: 0 <= k < |calls| ==> h.delete(calls[k].op, WorldAfter(h.delete, w0, calls, k)).err.None?
  }

  lemma DeletesReturned<W>(h: Hooks<W>, w0: W, calls: seq<Call>, world: W)
    requires Answered(CallCleanup(h), w0, calls, world)
    ensures Answered(h.delete, w0, calls, world)
    ensures SomeFailed(calls) <==> !DeletesSucceeded(h, w0, calls)
  {
    forall k | 0 <= k < |calls|
      ensures Returned(h.delete, w0, calls, k)
      ensures calls[k].err == h.delete(calls[k].op, WorldAfter(h.delete, w0, calls, k)).err
    {
      assert Returned(CallCleanup(h), w0, calls, k);
      DeleteWorlds(h, w0, calls, k);
    }
    DeleteWorlds(h, w0, calls, |calls|);
  }

  /** Every call of a cleanup returns the event and the error of the operand's Delete on the world that the
      Deletes before it left, and the cleanup leaves the world of the last one. It returns no error exactly
      when every Delete that was called returned none (and the strategy is known). */
  lemma CleanupAnswered<W>(co: CompositeOperator, h: Hooks<W>, w0: W, run: Executed<W>)
    requires CleanupMay(co, false, h, w0, run)
    ensures Answered(h.delete, w0, CallsOf(run), run.world)
    ensures run.err.None? <==> Runs(co.strategy, co.order) && DeletesSucceeded(h, w0, CallsOf(run))
  {
    RunAnswered(co.strategy, Reversed(co.order), CallCleanup(h), w0, run);
    DeletesReturned(h, w0, CallsOf(run), run.world);
  }

  /** A Delete that fails on an operand that is called makes the cleanup fail. */
  lemma FailedDelete<W>(co: CompositeOperator, h: Hooks<W>, w0: W, run: Executed<W>, k: nat)
    requires CleanupMay(co, false, h, w0, run) && k < |CallsOf(run)|
    requires h.delete(CallsOf(run)[k].op, WorldAfter(h.delete, w0, CallsOf(run), k)).err.Some?
    ensures run.err.Some?
  {
    CleanupAnswered(co, h, w0, run);
  }

  /** The hooks of an operand succeed on a world. */
  ghost predicate HooksSucceed<W>(h: Hooks<W>, op: Operand, w: W) {
    var first := h.ensure(op, w);
    first.err.None? && h.readyCheck(op, first.world) == (true, None) && h.postReady(op, first.world).0.None?
  }

  /** The run that Ensure makes fails exactly when the hooks of some operand that was called did not succeed
      on the world that the calls before it left (or the strategy is unknown). */
  lemma EnsureAnswered<W>(co: CompositeOperator, h: Hooks<W>, w0: W, run: Executed<W>)
    requires MayExecute(co.strategy, co.order, CallEnsure(h), w0, run)
    ensures Answered(CallEnsure(h), w0, CallsOf(run), run.world)
    ensures run.err.None? <==>
            && Runs(co.strategy, co.order)
            && forall k :: 0 <= k < |CallsOf(run)| ==>
                 HooksSucceed(h, CallsOf(run)[k].op, WorldAfter(CallEnsure(h), w0, CallsOf(run), k))
  {
    RunAnswered(co.strategy, co.order, CallEnsure(h), w0, run);
    var calls := CallsOf(run);
    forall k | 0 <= k < |calls|
      ensures calls[k].err.None? <==> HooksSucceed(h, calls[k].op, WorldAfter(CallEnsure(h), w0, calls, k))
    {
      assert Returned(CallEnsure(h), w0, calls, k);
      CallEnsureSucceedsIff(h, calls[k].op, WorldAfter(CallEnsure(h), w0, calls, k));
    }
  }
}
