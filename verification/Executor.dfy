/** Running the operands of an order, step by step (operator/v1/executor/executor.go). */
module Executor {
  import opened Collections
  import opened Operands
  import opened Errors

  /** What calling an operand gives back, and the world it leaves. */
  datatype Reply<W> = Reply(event: bool, err: Option<Error>, world: W)

  /** Any behaviour of the operands: what a call does may depend on everything that happened before. */
  type Behaviour<!W> = (Operand, W) -> Reply<W>

  /** A call that was made and what it returned. */
  datatype Call = Call(op: Operand, event: bool, err: Option<Error>)

  /** One executed step: its calls in the order they were made, whether a result was returned, the
      error and the world afterwards. */
  datatype StepOutcome<W> = StepOutcome(calls: seq<Call>, changed: bool, err: Option<Error>, world: W)

  datatype Strategy = Parallel | Serial | Unknown(code: int)

  function CallOf<W>(op: Operand, r: Reply<W>): Call {
    Call(op, r.event, r.err)
  }

  // ---------- operand calls ----------

  /** The functions of the operands that touch the world. */
  datatype Hooks<!W> = Hooks(ensure: (Operand, W) -> Reply<W>,
                             readyCheck: (Operand, W) -> (bool, Option<Error>),
                             postReady: (Operand, W) -> (Option<Error>, W),
                             delete: (Operand, W) -> Reply<W>)

  function CallEnsure<W>(h: Hooks<W>): Behaviour<W> {
    (op: Operand, w: W) =>
      var r := h.ensure(op, w);
      if r.err.Some? then Reply(false, r.err, r.world) else
        var (ready, readyErr) := h.readyCheck(op, r.world);
        if readyErr.Some? then Reply(false, readyErr, r.world)
        else if !ready then Reply(false, Some(Wrapped("operand readiness check failed", NotReady)), r.world)
        else
          var (postErr, w') := h.postReady(op, r.world);
          if postErr.Some? then Reply(false, postErr, w') else Reply(r.event, None, w')
  }

  /** Ensuring an operand succeeds exactly when its Ensure does, it is ready and its PostReady succeeds;
      only then is an event reported, the one of Ensure. Otherwise the first error of the three is returned,
      with ErrNotReady for an operand that is not ready, in the world left by what ran. */
  lemma CallEnsureSucceedsIff<W>(h: Hooks<W>, op: Operand, w: W)
    ensures var first := h.ensure(op, w);
            var ready := h.readyCheck(op, first.world);
            var r := CallEnsure(h)(op, w);
            && (r.err.None? <==> first.err.None? && ready == (true, None) && h.postReady(op, first.world).0.None?)
            && (r.event <==> r.err.None? && first.event)
            && (first.err.Some? ==> r.err == first.err && r.world == first.world)
            && (first.err.None? && ready.1.Some? ==> r.err == ready.1 && r.world == first.world)
            && (first.err.None? && ready == (false, None) ==>
                 r.err.Some? && Root(r.err.value) == NotReady && r.world == first.world)
            && (first.err.None? && ready == (true, None) ==>
                 r.err == h.postReady(op, first.world).0 && r.world == h.postReady(op, first.world).1)
  {
  }

  function CallCleanup<W>(h: Hooks<W>): Behaviour<W> {
    (op: Operand, w: W) => h.delete(op, w)
  }

  // ---------- one step ----------

  function CallAll<W>(ops: seq<Operand>, call: Behaviour<W>, w: W): (seq<Call>, W) {
    if ops == [] then ([], w) else
      var r := call(ops[0], w);
      var (calls, w') := CallAll(ops[1..], call, r.world);
      ([CallOf(ops[0], r)] + calls, w')
  }

  /** The serial step: the calls up to and including the first one that fails. */
  ghost function SerialStep<W>(ops: seq<Operand>, call: Behaviour<W>, w: W): StepOutcome<W> {
    if ops == [] then StepOutcome([], false, None, w) else
      var r := call(ops[0], w);
      if r.err.Some? then StepOutcome([CallOf(ops[0], r)], false, Some(Aggregate([r.err.value])), r.world)
      else
        var rest := SerialStep(ops[1..], call, r.world);
        rest.(calls := [CallOf(ops[0], r)] + rest.calls, changed := r.event || rest.changed)
  }

  /** An outcome after calls that were made before and did not fail. */
  ghost function Preceded<W>(calls: seq<Call>, changed: bool, out: StepOutcome<W>): StepOutcome<W> {
    out.(calls := calls + out.calls, changed := changed || out.changed)
  }

  lemma SerialNext<W>(ops: seq<Operand>, i: nat, call: Behaviour<W>, calls: seq<Call>, changed: bool, w: W)
    requires i < |ops|
    ensures var r := call(ops[i], w);
            Preceded(calls, changed, SerialStep(ops[i..], call, w)) ==
            if r.err.Some? then StepOutcome(calls + [CallOf(ops[i], r)], changed, Some(Aggregate([r.err.value])),
                r.world)
            else Preceded(calls + [CallOf(ops[i], r)], changed || r.event, SerialStep(ops[i + 1..], call, r.world))
  {
    assert ops[i..][1..] == ops[i + 1..] && ops[i..][0] == ops[i];
    var r := call(ops[i], w);
    if r.err.None? {
      var rest := SerialStep(ops[i + 1..], call, r.world);
      assert calls + ([CallOf(ops[i], r)] + rest.calls) == calls + [CallOf(ops[i], r)] + rest.calls;
    }
  }

  method SerialExec<W>(ops: seq<Operand>, call: Behaviour<W>, w0: W) returns (out: StepOutcome<W>)
    ensures out == SerialStep(ops, call, w0)
  {
    var calls, changed, w := [], false, w0;
    assert ops[0..] == ops;
    for i := 0 to |ops|
      invariant SerialStep(ops, call, w0) == Preceded(calls, changed, SerialStep(ops[i..], call, w))
    {
      SerialNext(ops, i, call, calls, changed, w);
      var r := call(ops[i], w);
      w := r.world;
      calls := calls + [CallOf(ops[i], r)];
      if r.err.Some? {
        AggregateOne(r.err.value);
        return StepOutcome(calls, changed, NewAggregate([None, r.err]), w);
      }
      if r.event {
        changed := true;
      }
    }
    return StepOutcome(calls, changed, None, w);
  }
}
