/** When the operator's order protects the requirements of its operands: in every schedule exactly if
    the solution is strict. */
module RequirementOrder {
  import opened Collections
  import opened Operands
  import opened Graphs
  import opened OperandDag
  import opened OperandDagOrder
  import opened Executor
  import opened Goroutines
  import opened Schedules
  import opened Execution
  import opened CompositeOperators

  /** Two operands of a step, one of which requires the other. */
  ghost predicate Clash(co: CompositeOperator, s: nat, i: nat, j: nat) {
    && s < |co.order| && i < |co.order[s]| && j < |co.order[s]| && i != j
    && co.order[s][j].name in co.order[s][i].needs
  }

  /** The solution is strict exactly when no two operands of a step clash. */
  lemma StrictIffNoClash(co: CompositeOperator)
    requires Valid(co)
    ensures Strict(co.graph, Solution(co)) <==> forall s: nat, i: nat, j: nat :: !Clash(co, s, i, j)
  {
    if s: nat, i: nat, j: nat :| Clash(co, s, i, j) {
      var op, dep := co.order[s][i], co.order[s][j];
      assert op in co.order[s] && dep in co.order[s];
      assert dep.name in co.graph.preds[op.name];
    } else if !Strict(co.graph, Solution(co)) {
      var op, dep :| op in co.graph.values && op in Solution(co) && dep in co.graph.preds[op] &&
                     !(dep in Solution(co) && Solution(co)[dep] < Solution(co)[op]);
      var _, _, _ := FindClash(co, op, dep);
    }
  }

  lemma FindClash(co: CompositeOperator, op: Name, dep: Name) returns (s: nat, i: nat, j: nat)
    requires Valid(co) && op in co.graph.values && op in Solution(co) && dep in co.graph.preds[op]
    requires !(dep in Solution(co) && Solution(co)[dep] < Solution(co)[op])
    ensures Clash(co, s, i, j)
  {
    var g, n := co.graph, |co.order|;
    RequirementNotLater(g, n, dep, op);
    SolutionKeys(g, n, op);
    GroundedPred(g, op, dep);
    s := Solution(co)[op];
    assert g.values[op] in co.order[s] && g.values[dep] in co.order[s];
    i :| 0 <= i < |co.order[s]| && co.order[s][i] == g.values[op];
    j :| 0 <= j < |co.order[s]| && co.order[s][j] == g.values[dep];
  }

  // ---------- whole runs ----------

  lemma SomeOutcome<W>(strategy: Strategy, ops: seq<Operand>, call: Behaviour<W>, w: W) returns (out: StepOutcome<W>)
    requires !strategy.Unknown?
    ensures StepsUnder(strategy, call)(ops, w, out)
  {
    if strategy == Serial {
      out := SerialStep(ops, call, w);
    } else {
      var order := seq(|ops|, k requires 0 <= k < |ops| => k);
      var run, moves := AnyOrder(ops, call, w, order);
      out := OutcomeOf(run[|run| - 1]);
    }
  }

  /** Steps that were clean so far are the beginning of some run of the whole order. */
  lemma {:induction false} RunFrom<W>(strategy: Strategy, order: OperandOrder, call: Behaviour<W>, w0: W,
                                      log: seq<StepOutcome<W>>)
    returns (e: Executed<W>)
    requires !strategy.Unknown? && Going(StepsUnder(strategy, call), order, w0, log)
    ensures Stepwise(StepsUnder(strategy, call), order, w0, e) && log <= e.log
    decreases |order| - |log|
  {
    if |log| == |order| {
      e := Executed(false, None, log, WorldBefore(w0, log, |log|));
    } else {
      var out := SomeOutcome(strategy, order[|log|], call, WorldBefore(w0, log, |log|));
      e := RunAfter(strategy, order, call, w0, log, out);
    }
  }

  lemma RunAfter<W>(strategy: Strategy, order: OperandOrder, call: Behaviour<W>, w0: W, log: seq<StepOutcome<W>>,
                    out: StepOutcome<W>)
    returns (e: Executed<W>)
    requires !strategy.Unknown? && Going(StepsUnder(strategy, call), order, w0, log) && |log| < |order|
    requires StepsUnder(strategy, call)(order[|log|], WorldBefore(w0, log, |log|), out)
    ensures Stepwise(StepsUnder(strategy, call), order, w0, e) && log + [out] <= e.log
    decreases |order| - |log|, 0
  {
    var may := StepsUnder(strategy, call);
    if Clean(order[|log|], out) {
      Continues(may, order, w0, log, out);
      e := RunFrom(strategy, order, call, w0, log + [out]);
    } else {
      Stops(may, order, w0, log, out);
      e := Executed(true, out.err, log + [out], out.world);
    }
  }

  /** The step called operand i of it first, and operand j only later. */
  ghost predicate CalledBefore<W>(ops: seq<Operand>, out: StepOutcome<W>, i: nat, j: nat) {
    && i < |ops| && j < |ops| && out.calls != [] && out.calls[0].op == ops[i]
    && exists k :: 0 < k < |out.calls| && out.calls[k].op == ops[j]
  }

  /** Whatever the operands do, and however the steps before went as long as they were clean: where two
      operands of a step clash, some run of the whole order goes on by calling the one before the other,
      which it requires. */
  lemma RunViolates<W>(co: CompositeOperator, call: Behaviour<W>, w0: W, log: seq<StepOutcome<W>>, i: nat, j: nat)
    returns (e: Executed<W>, run: seq<State<W>>, moves: seq<Move>)
    requires Clash(co, |log|, i, j) && Going(StepsUnder(Parallel, call), co.order, w0, log)
    ensures MayExecute(Parallel, co.order, call, w0, e)
    ensures log < e.log && CalledBefore(co.order[|log|], e.log[|log|], i, j)
    ensures Run(co.order[|log|], call, WorldBefore(w0, log, |log|), run, moves)
    ensures run[|run| - 1].main == Returned && OutcomeOf(run[|run| - 1]) == e.log[|log|]
  {
    var s, w := |log|, WorldBefore(w0, log, |log|);
    run, moves := EitherFirst(co.order[s], call, w, i, j);
    var out := OutcomeOf(run[|run| - 1]);
    assert StepsUnder(Parallel, call)(co.order[s], w, out);
    e := RunAfter(Parallel, co.order, call, w0, log, out);
    assert e.log[s] == out;
  }

  /** No call fails or reports an event. */
  ghost predicate Uneventful<W(!new)>(call: Behaviour<W>) {
    forall op, w :: call(op, w).err.None? && !call(op, w).event
  }

  lemma {:induction false} UneventfulCalls<W(!new)>(ops: seq<Operand>, call: Behaviour<W>, w: W)
    requires Uneventful(call)
    ensures forall i :: 0 <= i < |CallAll(ops, call, w).0| ==>
            CallAll(ops, call, w).0[i].err.None? && !CallAll(ops, call, w).0[i].event
    decreases ops
  {
    if ops != [] {
      UneventfulCalls(ops[1..], call, call(ops[0], w).world);
    }
  }

  lemma {:induction false} UneventfulSerial<W(!new)>(ops: seq<Operand>, call: Behaviour<W>, w: W)
    requires Uneventful(call)
    ensures SerialStep(ops, call, w).err.None? && !SerialStep(ops, call, w).changed
    decreases ops
  {
    if ops != [] {
      UneventfulSerial(ops[1..], call, call(ops[0], w).world);
    }
  }

  lemma CleanOutcome<W(!new)>(strategy: Strategy, ops: seq<Operand>, call: Behaviour<W>, w: W)
    returns (out: StepOutcome<W>)
    requires !strategy.Unknown? && Uneventful(call)
    ensures StepsUnder(strategy, call)(ops, w, out) && Clean(ops, out)
  {
    out := SomeOutcome(strategy, ops, call, w);
    if strategy == Serial {
      UneventfulSerial(ops, call, w);
    } else {
      UneventfulCalls(OpsOf(out.calls), call, w);
    }
  }

  ghost predicate MayBeClean<W(!new)>(may: StepRelation<W>, ops: seq<Operand>, w: W) {
    exists out :: may(ops, w, out) && Clean(ops, out)
  }

  /** If every step may be clean, some run comes to every step. */
  lemma {:induction false} CleanPrefix<W(!new)>(may: StepRelation<W>, order: OperandOrder, w0: W, n: nat)
    returns (log: seq<StepOutcome<W>>)
    requires (forall ops, w :: MayBeClean(may, ops, w)) && n <= |order|
    ensures Going(may, order, w0, log) && |log| == n
    decreases n
  {
    if n == 0 {
      log := [];
    } else {
      var before := CleanPrefix(may, order, w0, n - 1);
      var w := WorldBefore(w0, before, n - 1);
      assert MayBeClean(may, order[n - 1], w);
      var out :| may(order[n - 1], w, out) && Clean(order[n - 1], out);
      Continues(may, order, w0, before, out);
      log := before + [out];
    }
  }

  /** Where the solution is not strict, some parallel run of the whole order, over operands that neither
      fail nor report an event, calls an operand before something it requires. */
  lemma SomeRunViolates<W(!new)>(co: CompositeOperator, call: Behaviour<W>, w0: W)
    returns (s: nat, i: nat, j: nat, e: Executed<W>)
    requires Valid(co) && !Strict(co.graph, Solution(co)) && Uneventful(call)
    ensures Clash(co, s, i, j) && MayExecute(Parallel, co.order, call, w0, e)
    ensures s < |e.log| && CalledBefore(co.order[s], e.log[s], i, j)
  {
    StrictIffNoClash(co);
    s, i, j :| Clash(co, s, i, j);
    var may := StepsUnder(Parallel, call);
    forall ops, w ensures MayBeClean(may, ops, w) {
      var out := CleanOutcome(Parallel, ops, call, w);
    }
    var log := CleanPrefix(may, co.order, w0, s);
    var run, moves;
    e, run, moves := RunViolates(co, call, w0, log, i, j);
  }

  // ---------- serial runs ----------

  /** Operand i comes first in its step. */
  ghost function Fronted(ops: seq<Operand>, i: nat): seq<Operand>
    requires i < |ops|
  {
    ops[0 := ops[i]][i := ops[0]]
  }

  lemma FrontedStep(ops: seq<Operand>, i: nat)
    requires i < |ops| && NoDup(ops)
    ensures NoDup(Fronted(ops, i)) && (forall op :: op in Fronted(ops, i) <==> op in ops) &&
            Fronted(ops, i)[0] == ops[i]
  {
    var f := Fronted(ops, i);
    forall op ensures op in f <==> op in ops {
      if op in ops {
        var k :| 0 <= k < |ops| && ops[k] == op;
        assert f[if k == 0 then i else if k == i then 0 else k] == op;
      }
    }
  }

  /** The order of the operands within a step is left open. */
  lemma FrontedIsValid(co: CompositeOperator, s: nat, i: nat)
    requires Valid(co) && s < |co.order| && i < |co.order[s]|
    ensures Valid(co.(order := co.order[s := Fronted(co.order[s], i)], strategy := Serial))
  {
    FrontedStep(co.order[s], i);
    LayersReordered(co.graph, Solution(co), co.order, s, Fronted(co.order[s], i));
  }

  lemma LayersReordered(g: Graph, soln: Steps, o: OperandOrder, s: nat, ops: seq<Operand>)
    requires WellFormed(g) && Layered(g, soln, o) && s < |o|
    requires NoDup(ops) && forall op :: op in ops <==> op in o[s]
    ensures Layered(g, soln, o[s := ops])
  {
  }

  /** A serial step that does not fail calls the operands in the order they are listed. */
  lemma ListedOrder<W(!new)>(ops: seq<Operand>, j: nat, call: Behaviour<W>, w: W)
    requires Uneventful(call) && 0 < j < |ops|
    ensures CalledBefore(ops, SerialStep(ops, call, w), 0, j)
  {
    UneventfulSerial(ops, call, w);
    SerialPrefix(ops, call, w);
    var calls := SerialStep(ops, call, w).calls;
    assert OpsOf(calls)[0] == calls[0].op && OpsOf(calls)[j] == calls[j].op;
  }

  /** Where the solution is not strict, a serial operator over the same operands and the same graph, made
      from another iteration order of the map of steps, calls an operand before something it requires. */
  lemma SomeSerialRunViolates<W(!new)>(co: CompositeOperator, call: Behaviour<W>, w0: W)
    returns (serial: CompositeOperator, s: nat, j: nat, e: Executed<W>)
    requires Valid(co) && !Strict(co.graph, Solution(co)) && Uneventful(call)
    ensures Valid(serial) && serial.strategy == Serial
    ensures serial.operands == co.operands && serial.graph == co.graph && Solution(serial) == Solution(co)
    ensures Clash(serial, s, 0, j) && MayExecute(Serial, serial.order, call, w0, e)
    ensures s < |e.log| && CalledBefore(serial.order[s], e.log[s], 0, j)
  {
    StrictIffNoClash(co);
    var i: nat, k: nat;
    s, i, k :| Clash(co, s, i, k);
    FrontedIsValid(co, s, i);
    serial := co.(order := co.order[s := Fronted(co.order[s], i)], strategy := Serial);
    j := if k == 0 then i else k;
    e := SerialRun(serial.order, call, w0, s);
    ListedOrder(serial.order[s], j, call, WorldBefore(w0, e.log, s));
  }

  lemma SerialRun<W(!new)>(order: OperandOrder, call: Behaviour<W>, w0: W, s: nat) returns (e: Executed<W>)
    requires Uneventful(call) && s < |order|
    ensures MayExecute(Serial, order, call, w0, e) && s < |e.log|
    ensures e.log[s] == SerialStep(order[s], call, WorldBefore(w0, e.log, s))
  {
    var may := StepsUnder(Serial, call);
    forall ops, w ensures MayBeClean(may, ops, w) {
      var out := CleanOutcome(Serial, ops, call, w);
    }
    var log := CleanPrefix(may, order, w0, s + 1);
    e := RunFrom(Serial, order, call, w0, log);
    assert may(order[s], WorldBefore(w0, e.log, s), e.log[s]);
  }
}
