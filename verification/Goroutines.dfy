/** The concurrent execution of a step: goroutines, two buffered channels and a wait group
    (operator/v1/executor/executor.go, concurrentExec and operateWithWaitGroup). */
module Goroutines {
  import opened Collections
  import opened Operands
  import opened Errors
  import opened Executor

  /** Where a goroutine stands: not yet started, about to call its operand, about to send the error,
      about to send the result, about to call wg.Done, gone. */
  datatype Stage = Unspawned | Ready | Got(event: bool, err: Option<Error>) | PastErr(event: bool, err: Option<Error>)
                 | Leaving | Gone

  datatype Routine = Routine(op: Operand, stage: Stage)

  /** Where concurrentExec itself stands. */
  datatype Main = Spawning(next: nat) | Waiting | Closing | Draining | Checking | Returned

  datatype State<W> = State(main: Main, routines: seq<Routine>, wg: int, errChan: seq<Error>, errClosed: bool,
                            resultChan: nat, rerr: Option<Error>, received: nat, changed: bool,
                            calls: seq<Call>, world: W)

  /** One move of the scheduler. */
  datatype Move = Spawn | PassWait | CloseErrs | Receive | StopReceiving | CheckResults
                | CallOperand(i: nat) | SendErr(i: nat) | SendResult(i: nat) | Done(i: nat)

  function Start<W>(ops: seq<Operand>, w: W): State<W> {
    State(Spawning(0), seq(|ops|, i requires 0 <= i < |ops| => Routine(ops[i], Unspawned)), |ops|, [], false, 0,
          None, 0, false, [], w)
  }

  /** A send waits while its channel is full; wg.Wait waits while the counter is not zero. */
  predicate Enabled<W>(s: State<W>, m: Move) {
    match m
    case Spawn => s.main.Spawning?
    case PassWait => s.main == Waiting && s.wg == 0
    case CloseErrs => s.main == Closing
    case Receive => s.main == Draining && s.errChan != []
    case StopReceiving => s.main == Draining && s.errChan == [] && s.errClosed
    case CheckResults => s.main == Checking
    case CallOperand(i) => i < |s.routines| && s.routines[i].stage == Ready
    case SendErr(i) => i < |s.routines| && s.routines[i].stage.Got? &&
      (s.routines[i].stage.err.Some? ==> |s.errChan| < |s.routines|)
    case SendResult(i) => i < |s.routines| && s.routines[i].stage.PastErr? &&
      (s.routines[i].stage.event ==> s.resultChan < |s.routines|)
    case Done(i) => i < |s.routines| && s.routines[i].stage == Leaving
  }

  function MoveTo<W>(s: State<W>, i: nat, stage: Stage): State<W>
    requires i < |s.routines|
  {
    s.(routines := s.routines[i := s.routines[i].(stage := stage)])
  }

  function Next<W>(call: Behaviour<W>, s: State<W>, m: Move): State<W>
    requires Enabled(s, m)
  {
    match m
    case Spawn =>
      var k := s.main.next;
      if k < |s.routines| then MoveTo(s, k, Ready).(main := Spawning(k + 1)) else s.(main := Waiting)
    case PassWait => s.(main := Closing)
    case CloseErrs => s.(main := Draining, errClosed := true)
    case Receive =>
      s.(rerr := NewAggregate([s.rerr, Some(s.errChan[0])]), errChan := s.errChan[1..], received := s.received + 1)
    case StopReceiving => s.(main := Checking)
    case CheckResults => s.(main := Returned, changed := s.resultChan > 0)
    case CallOperand(i) =>
      var r := call(s.routines[i].op, s.world);
      MoveTo(s, i, Got(r.event, r.err)).(world := r.world, calls := s.calls + [CallOf(s.routines[i].op, r)])
    case SendErr(i) =>
      var st := s.routines[i].stage;
      MoveTo(s, i, PastErr(st.event, st.err)).(errChan := s.errChan + if st.err.Some? then [st.err.value] else [])
    case SendResult(i) =>
      MoveTo(s, i, Leaving).(resultChan := s.resultChan + if s.routines[i].stage.event then 1 else 0)
    case Done(i) => MoveTo(s, i, Gone).(wg := s.wg - 1)
  }

  // ---------- what the goroutines still owe ----------

  ghost function Mark(b: bool): nat {
    if b then 1 else 0
  }

  ghost function Unfinished(r: Routine): nat { Mark(r.stage != Gone) }
  ghost function ErrSent(r: Routine): nat { Mark(r.stage.PastErr? || r.stage == Leaving || r.stage == Gone) }
  ghost function ResultSent(r: Routine): nat { Mark(r.stage == Leaving || r.stage == Gone) }
  ghost function OwesErr(r: Routine): nat { Mark(r.stage.Got? && r.stage.err.Some?) }
  ghost function OwesResult(r: Routine): nat { Mark((r.stage.Got? || r.stage.PastErr?) && r.stage.event) }
  ghost function OwesCall(r: Routine): multiset<Operand> {
    if r.stage == Unspawned || r.stage == Ready then multiset{r.op} else multiset{}
  }
  ghost function OwesLeaves(r: Routine): multiset<Error> {
    if r.stage.Got? then LeavesOfOption(r.stage.err) else multiset{}
  }

  ghost function Failed(c: Call): nat { Mark(c.err.Some?) }
  ghost function Changed(c: Call): nat { Mark(c.event) }
  ghost function OpOf(c: Call): multiset<Operand> { multiset{c.op} }
  ghost function CallLeaves(c: Call): multiset<Error> { LeavesOfOption(c.err) }

  // ---------- the invariant ----------

  /** The program counters of concurrentExec and of the goroutines fit together. */
  ghost predicate Phases<W>(s: State<W>) {
    && (s.main.Spawning? ==> s.main.next <= |s.routines|)
    && (s.main.Spawning? ==> forall i :: 0 <= i < |s.routines| ==>
         (s.routines[i].stage == Unspawned <==> i >= s.main.next))
    && (!s.main.Spawning? ==> forall i :: 0 <= i < |s.routines| ==> s.routines[i].stage != Unspawned)
    && (s.main in {Closing, Draining, Checking, Returned} ==> s.wg == 0)
    && (s.errClosed <==> s.main in {Draining, Checking, Returned})
    && (s.main in {Checking, Returned} ==> s.errChan == [])
    && (s.changed <==> s.main == Returned && s.resultChan > 0)
    && (s.rerr.None? <==> s.received == 0)
  }

  /** The wait group and the channel loads count the goroutines. */
  ghost predicate Counters<W>(s: State<W>) {
    && s.wg == Sum(s.routines, Unfinished)
    && |s.errChan| + s.received <= Sum(s.routines, ErrSent)
    && s.resultChan <= Sum(s.routines, ResultSent)
  }

  /** Nothing is lost: what was returned by the calls is received, in a channel, or still owed. */
  ghost predicate Conserved<W>(s: State<W>) {
    && |s.errChan| + s.received + Sum(s.routines, OwesErr) == Sum(s.calls, Failed)
    && s.resultChan + Sum(s.routines, OwesResult) == Sum(s.calls, Changed)
  }

  ghost predicate LeavesConserved<W>(s: State<W>) {
    LeavesOfOption(s.rerr) + Total(s.errChan, Leaves) + Total(s.routines, OwesLeaves) == Total(s.calls, CallLeaves)
  }

  ghost predicate CallsConserved<W>(ops: seq<Operand>, s: State<W>) {
    && |s.routines| == |ops|
    && Total(s.calls, OpOf) + Total(s.routines, OwesCall) == multiset(ops)
  }

  function OpsOf(calls: seq<Call>): seq<Operand> {
    seq(|calls|, i requires 0 <= i < |calls| => calls[i].op)
  }

  /** The calls were made one after the other on the world. */
  ghost predicate Threaded<W>(call: Behaviour<W>, w0: W, s: State<W>) {
    CallAll(OpsOf(s.calls), call, w0) == (s.calls, s.world)
  }

  ghost predicate Inv<W>(ops: seq<Operand>, call: Behaviour<W>, w0: W, s: State<W>) {
    Phases(s) && Counters(s) && Conserved(s) && LeavesConserved(s) && CallsConserved(ops, s) && Threaded(call, w0, s)
  }

  // ---------- every move keeps it ----------

  /** The goroutine that a move advances, if it advances one. */
  ghost function Mover<W>(s: State<W>, m: Move): Option<nat> {
    match m
    case Spawn => if s.main.Spawning? && s.main.next < |s.routines| then Some(s.main.next) else None
    case CallOperand(i) => Some(i)
    case SendErr(i) => Some(i)
    case SendResult(i) => Some(i)
    case Done(i) => Some(i)
    case _ => None
  }

  lemma SumMove<W>(call: Behaviour<W>, s: State<W>, m: Move, f: Routine -> nat)
    requires Enabled(s, m)
    ensures var s' := Next(call, s, m);
            if Mover(s, m).None? then s'.routines == s.routines else
              var i := Mover(s, m).value;
              && i < |s.routines| == |s'.routines|
              && Sum(s'.routines, f) + f(s.routines[i]) == Sum(s.routines, f) + f(s'.routines[i])
  {
    if Mover(s, m).Some? {
      var i := Mover(s, m).value;
      SumUpdate(s.routines, i, Next(call, s, m).routines[i], f);
    }
  }

  /** What a goroutine owes is settled by its own moves only. */
  lemma TotalMove<W, T>(call: Behaviour<W>, s: State<W>, m: Move, f: Routine -> multiset<T>)
    requires Enabled(s, m)
    ensures var s' := Next(call, s, m);
            if Mover(s, m).None? then Total(s'.routines, f) == Total(s.routines, f) else
              var i := Mover(s, m).value;
              && i < |s.routines| == |s'.routines|
              && Total(s'.routines, f) + f(s.routines[i]) == Total(s.routines, f) + f(s'.routines[i])
              && (f(s.routines[i]) == f(s'.routines[i]) ==> Total(s'.routines, f) == Total(s.routines, f))
  {
    if Mover(s, m).Some? {
      var i := Mover(s, m).value;
      var s' := Next(call, s, m);
      TotalUpdate(s.routines, i, s'.routines[i], f);
      if f(s.routines[i]) == f(s'.routines[i]) {
        Cancel(Total(s'.routines, f), Total(s.routines, f), f(s.routines[i]));
      }
    }
  }

  lemma CountersKept<W>(call: Behaviour<W>, s: State<W>, m: Move)
    requires Enabled(s, m) && Phases(s) && Counters(s)
    ensures Counters(Next(call, s, m))
  {
    UnfinishedKept(call, s, m);
    ErrSentKept(call, s, m);
    SumMove(call, s, m, ResultSent);
  }

  lemma ErrSentKept<W>(call: Behaviour<W>, s: State<W>, m: Move)
    requires Enabled(s, m) && Phases(s) && |s.errChan| + s.received <= Sum(s.routines, ErrSent)
    ensures var s' := Next(call, s, m); |s'.errChan| + s'.received <= Sum(s'.routines, ErrSent)
  {
    SumMove(call, s, m, ErrSent);
  }

  lemma UnfinishedKept<W>(call: Behaviour<W>, s: State<W>, m: Move)
    requires Enabled(s, m) && Phases(s) && s.wg == Sum(s.routines, Unfinished)
    ensures Next(call, s, m).wg == Sum(Next(call, s, m).routines, Unfinished)
  {
    SumMove(call, s, m, Unfinished);
  }

  lemma ErrsConserved<W>(call: Behaviour<W>, s: State<W>, m: Move)
    requires Enabled(s, m) && Phases(s) && |s.errChan| + s.received + Sum(s.routines, OwesErr) == Sum(s.calls, Failed)
    ensures var s' := Next(call, s, m);
            |s'.errChan| + s'.received + Sum(s'.routines, OwesErr) == Sum(s'.calls, Failed)
  {
    SumMove(call, s, m, OwesErr);
    if m.CallOperand? {
      SumAppend(s.calls, CallOf(s.routines[m.i].op, call(s.routines[m.i].op, s.world)), Failed);
    }
  }

  lemma ResultsConserved<W>(call: Behaviour<W>, s: State<W>, m: Move)
    requires Enabled(s, m) && Phases(s) && s.resultChan + Sum(s.routines, OwesResult) == Sum(s.calls, Changed)
    ensures var s' := Next(call, s, m);
            s'.resultChan + Sum(s'.routines, OwesResult) == Sum(s'.calls, Changed)
  {
    SumMove(call, s, m, OwesResult);
    if m.CallOperand? {
      SumAppend(s.calls, CallOf(s.routines[m.i].op, call(s.routines[m.i].op, s.world)), Changed);
    }
  }

  lemma ConservedKept<W>(call: Behaviour<W>, s: State<W>, m: Move)
    requires Enabled(s, m) && Phases(s) && Conserved(s)
    ensures Conserved(Next(call, s, m))
  {
    ErrsConserved(call, s, m);
    ResultsConserved(call, s, m);
  }

  lemma LeavesKeptByCall<W>(call: Behaviour<W>, s: State<W>, i: nat)
    requires Enabled(s, CallOperand(i)) && LeavesConserved(s)
    ensures LeavesConserved(Next(call, s, CallOperand(i)))
  {
    TotalMove(call, s, CallOperand(i), OwesLeaves);
    var s' := Next(call, s, CallOperand(i));
    var c := CallOf(s.routines[i].op, call(s.routines[i].op, s.world));
    TotalAppend(s.calls, c, CallLeaves);
    assert Total(s'.routines, OwesLeaves) == Total(s.routines, OwesLeaves) + CallLeaves(c);
  }

  lemma LeavesKeptBySend<W>(call: Behaviour<W>, s: State<W>, i: nat)
    requires Enabled(s, SendErr(i)) && LeavesConserved(s)
    ensures LeavesConserved(Next(call, s, SendErr(i)))
  {
    TotalMove(call, s, SendErr(i), OwesLeaves);
    var err := ErrNoLongerOwed(call, s, i);
    var s' := Next(call, s, SendErr(i));
    Handed(LeavesOfOption(s.rerr), Total(s.errChan, Leaves), Total(s.routines, OwesLeaves), LeavesOfOption(err),
           Total(s'.routines, OwesLeaves));
  }

  /** What leaves the goroutine enters the channel. */
  lemma ErrNoLongerOwed<W>(call: Behaviour<W>, s: State<W>, i: nat) returns (err: Option<Error>)
    requires Enabled(s, SendErr(i))
    ensures var s' := Next(call, s, SendErr(i));
            && Total(s'.errChan, Leaves) == Total(s.errChan, Leaves) + LeavesOfOption(err)
            && s'.rerr == s.rerr && s'.calls == s.calls && |s'.routines| == |s.routines|
            && OwesLeaves(s.routines[i]) == LeavesOfOption(err) && OwesLeaves(s'.routines[i]) == multiset{}
  {
    err := s.routines[i].stage.err;
    SentLeaves(s.errChan, err);
  }

  lemma SentLeaves(chan: seq<Error>, err: Option<Error>)
    ensures Total(chan + (if err.Some? then [err.value] else []), Leaves) == Total(chan, Leaves) + LeavesOfOption(err)
  {
    if err.Some? {
      TotalAppend(chan, err.value, Leaves);
    } else {
      assert chan + [] == chan;
    }
  }

  lemma Handed<T>(kept: multiset<T>, chan: multiset<T>, owed: multiset<T>, x: multiset<T>, owed': multiset<T>)
    requires owed' + x == owed + multiset{}
    ensures kept + (chan + x) + owed' == kept + chan + owed
  {
    assert owed == owed' + x;
  }

  lemma LeavesKeptByReceive<W>(call: Behaviour<W>, s: State<W>)
    requires Enabled(s, Receive) && LeavesConserved(s)
    ensures LeavesConserved(Next(call, s, Receive))
  {
    var e := s.errChan[0];
    AccumulateLeaves(s.rerr, e);
    calc {
      LeavesOfOption(s.rerr) + Total(s.errChan, Leaves);
      LeavesOfOption(s.rerr) + (Leaves(e) + Total(s.errChan[1..], Leaves));
      LeavesOfOption(s.rerr) + Leaves(e) + Total(s.errChan[1..], Leaves);
    }
  }

  lemma LeavesKeptByOther<W>(call: Behaviour<W>, s: State<W>, m: Move)
    requires Enabled(s, m) && Phases(s) && LeavesConserved(s) && !m.CallOperand? && !m.SendErr? && !m.Receive?
    ensures LeavesConserved(Next(call, s, m))
  {
    TotalMove(call, s, m, OwesLeaves);
    var s' := Next(call, s, m);
    assert s'.rerr == s.rerr && s'.errChan == s.errChan && s'.calls == s.calls;
    if Mover(s, m).Some? {
      var i := Mover(s, m).value;
      assert !s.routines[i].stage.Got? && !s'.routines[i].stage.Got?;
    }
  }

  lemma LeavesKept<W>(call: Behaviour<W>, s: State<W>, m: Move)
    requires Enabled(s, m) && Phases(s) && LeavesConserved(s)
    ensures LeavesConserved(Next(call, s, m))
  {
    match m
    case CallOperand(i) => LeavesKeptByCall(call, s, i);
    case SendErr(i) => LeavesKeptBySend(call, s, i);
    case Receive => LeavesKeptByReceive(call, s);
    case _ => LeavesKeptByOther(call, s, m);
  }

  lemma CallsKept<W>(ops: seq<Operand>, call: Behaviour<W>, s: State<W>, m: Move)
    requires Enabled(s, m) && Phases(s) && CallsConserved(ops, s)
    ensures CallsConserved(ops, Next(call, s, m))
  {
    if m.CallOperand? {
      CallsKeptByCall(ops, call, s, m.i);
    } else {
      CallsKeptByOther(ops, call, s, m);
    }
  }

  /** A goroutine owes its call until it makes it. */
  lemma CallStillOwed<W>(call: Behaviour<W>, s: State<W>, m: Move)
    requires Enabled(s, m) && Phases(s) && !m.CallOperand?
    ensures var s' := Next(call, s, m);
            && s'.calls == s.calls && |s'.routines| == |s.routines|
            && (Mover(s, m).Some? ==>
                 OwesCall(s.routines[Mover(s, m).value]) == OwesCall(s'.routines[Mover(s, m).value]))
  {
  }

  lemma CallsKeptByOther<W>(ops: seq<Operand>, call: Behaviour<W>, s: State<W>, m: Move)
    requires Enabled(s, m) && Phases(s) && CallsConserved(ops, s) && !m.CallOperand?
    ensures CallsConserved(ops, Next(call, s, m))
  {
    TotalMove(call, s, m, OwesCall);
    CallStillOwed(call, s, m);
    assert Total(Next(call, s, m).routines, OwesCall) == Total(s.routines, OwesCall);
  }

  lemma CallNoLongerOwed<W>(call: Behaviour<W>, s: State<W>, i: nat) returns (c: Call)
    requires Enabled(s, CallOperand(i))
    ensures Next(call, s, CallOperand(i)).calls == s.calls + [c]
    ensures |Next(call, s, CallOperand(i)).routines| == |s.routines|
    ensures OwesCall(s.routines[i]) == OpOf(c) && OwesCall(Next(call, s, CallOperand(i)).routines[i]) == multiset{}
  {
    c := CallOf(s.routines[i].op, call(s.routines[i].op, s.world));
  }

  lemma CallsKeptByCall<W>(ops: seq<Operand>, call: Behaviour<W>, s: State<W>, i: nat)
    requires Enabled(s, CallOperand(i)) && CallsConserved(ops, s)
    ensures CallsConserved(ops, Next(call, s, CallOperand(i)))
  {
    TotalMove(call, s, CallOperand(i), OwesCall);
    var c := CallNoLongerOwed(call, s, i);
    var s' := Next(call, s, CallOperand(i));
    assert Total(s'.calls, OpOf) == Total(s.calls, OpOf) + OpOf(c) by {
      TotalAppend(s.calls, c, OpOf);
    }
    Settle(Total(s.calls, OpOf), Total(s.routines, OwesCall), OpOf(c), Total(s'.routines, OwesCall));
  }

  lemma Settle<T>(settled: multiset<T>, owed: multiset<T>, x: multiset<T>, owed': multiset<T>)
    requires owed' + x == owed + multiset{}
    ensures settled + x + owed' == settled + owed
  {
    assert owed == owed' + x;
  }

  lemma {:induction false} CallAllAppend<W>(ops: seq<Operand>, op: Operand, call: Behaviour<W>, w: W)
    ensures var w' := CallAll(ops, call, w).1;
            && CallAll(ops + [op], call, w).0 == CallAll(ops, call, w).0 + [CallOf(op, call(op, w'))]
            && CallAll(ops + [op], call, w).1 == call(op, w').world
  {
    if ops == [] {
      assert ops + [op] == [op] && [op][1..] == [];
    } else {
      assert (ops + [op])[1..] == ops[1..] + [op];
      CallAllAppend(ops[1..], op, call, call(ops[0], w).world);
    }
  }

  lemma ThreadedKept<W>(call: Behaviour<W>, w0: W, s: State<W>, m: Move)
    requires Enabled(s, m) && Threaded(call, w0, s)
    ensures Threaded(call, w0, Next(call, s, m))
  {
    if m.CallOperand? {
      var op := s.routines[m.i].op;
      CallAllAppend(OpsOf(s.calls), op, call, w0);
      assert OpsOf(Next(call, s, m).calls) == OpsOf(s.calls) + [op];
    }
  }

  lemma PhasesKept<W>(call: Behaviour<W>, s: State<W>, m: Move)
    requires Enabled(s, m) && Phases(s) && Counters(s)
    ensures Phases(Next(call, s, m))
  {
    if m.Receive? {
      AccumulateLeaves(s.rerr, s.errChan[0]);
    }
    AllGone(s);
  }

  /** A zero wait group means every goroutine is gone. */
  lemma AllGone<W>(s: State<W>)
    requires Counters(s)
    ensures s.wg >= 0
    ensures s.wg == 0 <==> forall i :: 0 <= i < |s.routines| ==> s.routines[i].stage == Gone
  {
    SumZero(s.routines, Unfinished);
  }

  lemma InvKept<W>(ops: seq<Operand>, call: Behaviour<W>, w0: W, s: State<W>, m: Move)
    requires Inv(ops, call, w0, s) && Enabled(s, m)
    ensures Inv(ops, call, w0, Next(call, s, m))
  {
    PhasesKept(call, s, m);
    CountersKept(call, s, m);
    ConservedKept(call, s, m);
    LeavesKept(call, s, m);
    CallsKept(ops, call, s, m);
    ThreadedKept(call, w0, s, m);
  }

  lemma {:induction false} StartFolds(ops: seq<Operand>, rs: seq<Routine>)
    requires |rs| == |ops| && forall i :: 0 <= i < |ops| ==> rs[i] == Routine(ops[i], Unspawned)
    ensures Sum(rs, Unfinished) == |ops|
    ensures Sum(rs, OwesErr) == Sum(rs, OwesResult) == 0
    ensures Total(rs, OwesCall) == multiset(ops) && Total(rs, OwesLeaves) == multiset{}
  {
    if ops != [] {
      StartFolds(ops[1..], rs[1..]);
      assert ops == [ops[0]] + ops[1..];
    }
  }

  lemma InvStart<W>(ops: seq<Operand>, call: Behaviour<W>, w0: W)
    ensures Inv(ops, call, w0, Start(ops, w0))
  {
    StartPhases(ops, w0);
    StartCounts(ops, w0);
  }

  lemma StartPhases<W>(ops: seq<Operand>, w0: W)
    ensures Phases(Start(ops, w0))
  {
  }

  lemma StartCounts<W>(ops: seq<Operand>, w0: W)
    ensures var s := Start(ops, w0);
            Counters(s) && Conserved(s) && LeavesConserved(s) && CallsConserved(ops, s)
  {
    StartFolds(ops, Start(ops, w0).routines);
  }

  // ---------- every schedule ----------

  /** States reached one after the other by moves of the scheduler, from the start. */
  ghost predicate Run<W>(ops: seq<Operand>, call: Behaviour<W>, w0: W, run: seq<State<W>>, moves: seq<Move>) {
    && |run| == |moves| + 1
    && run[0] == Start(ops, w0)
    && forall k :: 0 <= k < |moves| ==> Enabled(run[k], moves[k]) && run[k + 1] == Next(call, run[k], moves[k])
  }

  lemma {:induction false} RunInv<W>(ops: seq<Operand>, call: Behaviour<W>, w0: W, run: seq<State<W>>,
                                     moves: seq<Move>, k: nat)
    requires Run(ops, call, w0, run, moves) && k < |run|
    ensures Inv(ops, call, w0, run[k])
    decreases k
  {
    if k == 0 {
      InvStart(ops, call, w0);
    } else {
      RunInv(ops, call, w0, run, moves, k - 1);
      InvKept(ops, call, w0, run[k - 1], moves[k - 1]);
    }
  }

  /** Goroutine i is at a send on a channel that has no room. */
  predicate SendBlocked<W>(s: State<W>, i: nat)
    requires i < |s.routines|
  {
    var st := s.routines[i].stage;
    || (st.Got? && st.err.Some? && |s.errChan| >= |s.routines|)
    || (st.PastErr? && st.event && s.resultChan >= |s.routines|)
  }

  lemma NoSendBlocked<W>(s: State<W>, i: nat)
    requires Phases(s) && Counters(s) && i < |s.routines|
    ensures !SendBlocked(s, i)
    ensures s.main in {Closing, Draining, Checking, Returned} ==> s.routines[i].stage == Gone
  {
    if s.routines[i].stage.Got? {
      SumBelow(s.routines, i, ErrSent);
    }
    if s.routines[i].stage.PastErr? {
      SumBelow(s.routines, i, ResultSent);
    }
    AllGone(s);
  }

  /** In every state of every run no send blocks, no error is sent on the closed channel, and
      concurrentExec is past wg.Wait only when every goroutine is gone. */
  lemma SchedulesAreSafe<W>(ops: seq<Operand>, call: Behaviour<W>, w0: W, run: seq<State<W>>, moves: seq<Move>,
                            k: nat, i: nat)
    requires Run(ops, call, w0, run, moves) && k < |run| && i < |ops|
    ensures |run[k].routines| == |ops| && !SendBlocked(run[k], i)
    ensures run[k].errClosed ==> run[k].routines[i].stage == Gone
    ensures run[k].main in {Closing, Draining, Checking, Returned} ==> run[k].routines[i].stage == Gone
  {
    RunInv(ops, call, w0, run, moves, k);
    NoSendBlocked(run[k], i);
  }

  // ---------- every schedule ends ----------

  ghost function MainLeft(m: Main): nat {
    match m
    case Spawning(_) => 5
    case Waiting => 4
    case Closing => 3
    case Draining => 2
    case Checking => 1
    case Returned => 0
  }

  ghost function StagesLeft(r: Routine): nat {
    match r.stage
    case Unspawned => 5
    case Ready => 4
    case Got(_, _) => 3
    case PastErr(_, _) => 2
    case Leaving => 1
    case Gone => 0
  }

  /** Some goroutine or concurrentExec can always move until it has returned. */
  lemma NeverStuck<W>(s: State<W>) returns (m: Move)
    requires Phases(s) && Counters(s) && s.main != Returned
    ensures Enabled(s, m)
  {
    if s.main == Waiting && s.wg != 0 {
      AllGone(s);
      var i :| 0 <= i < |s.routines| && s.routines[i].stage != Gone;
      NoSendBlocked(s, i);
      m := match s.routines[i].stage
           case Ready => CallOperand(i)
           case Got(_, _) => SendErr(i)
           case PastErr(_, _) => SendResult(i)
           case Leaving => Done(i)
           case _ => Spawn;
    } else {
      m := match s.main
           case Spawning(_) => Spawn
           case Waiting => PassWait
           case Closing => CloseErrs
           case Draining => if s.errChan == [] then StopReceiving else Receive
           case Checking => CheckResults
           case Returned => Spawn;
    }
  }

  lemma MovesRunOut<W>(call: Behaviour<W>, s: State<W>, m: Move)
    requires Enabled(s, m) && Phases(s)
    ensures var s' := Next(call, s, m);
            || Sum(s'.routines, StagesLeft) < Sum(s.routines, StagesLeft)
            || (s'.routines == s.routines && MainLeft(s'.main) < MainLeft(s.main))
            || (s'.routines == s.routines && s'.main == s.main && |s'.errChan| < |s.errChan|)
  {
    if Mover(s, m).Some? {
      SumMove(call, s, m, StagesLeft);
      var i := Mover(s, m).value;
      assert StagesLeft(Next(call, s, m).routines[i]) < StagesLeft(s.routines[i]);
    }
  }

  // ---------- what the step returns ----------

  /** The step called every operand once, in some order; it returns a result exactly when some call
      had an event, an error exactly when some call failed, and the leaves of the error are exactly
      the leaves of the errors of the calls. */
  ghost predicate ConcurrentStep<W>(ops: seq<Operand>, call: Behaviour<W>, w0: W, out: StepOutcome<W>) {
    && multiset(OpsOf(out.calls)) == multiset(ops)
    && CallAll(OpsOf(out.calls), call, w0) == (out.calls, out.world)
    && (out.changed <==> exists i :: 0 <= i < |out.calls| && out.calls[i].event)
    && (out.err.None? <==> forall i :: 0 <= i < |out.calls| ==> out.calls[i].err.None?)
    && LeavesOfOption(out.err) == Total(out.calls, CallLeaves)
  }

  ghost function OutcomeOf<W>(s: State<W>): StepOutcome<W> {
    StepOutcome(s.calls, s.changed, s.rerr, s.world)
  }

  lemma {:induction false} OpsTotal(calls: seq<Call>)
    ensures Total(calls, OpOf) == multiset(OpsOf(calls))
  {
    if calls != [] {
      OpsTotal(calls[1..]);
      assert OpsOf(calls) == [calls[0].op] + OpsOf(calls[1..]);
    }
  }

  lemma ReturnedCalls<W>(ops: seq<Operand>, s: State<W>)
    requires CallsConserved(ops, s) && forall i :: 0 <= i < |s.routines| ==> s.routines[i].stage == Gone
    ensures multiset(OpsOf(s.calls)) == multiset(ops)
  {
    OpsTotal(s.calls);
    TotalEmpty(s.routines, OwesCall);
  }

  lemma ReturnedCounts<W>(s: State<W>)
    requires Conserved(s) && s.errChan == [] && forall i :: 0 <= i < |s.routines| ==> s.routines[i].stage == Gone
    ensures s.resultChan > 0 <==> exists i :: 0 <= i < |s.calls| && s.calls[i].event
    ensures s.received == 0 <==> forall i :: 0 <= i < |s.calls| ==> s.calls[i].err.None?
  {
    SumZero(s.routines, OwesErr);
    SumZero(s.routines, OwesResult);
    SumZero(s.calls, Failed);
    SumZero(s.calls, Changed);
  }

  lemma ReturnedOutcome<W>(ops: seq<Operand>, call: Behaviour<W>, w0: W, s: State<W>)
    requires Inv(ops, call, w0, s) && s.main == Returned
    ensures ConcurrentStep(ops, call, w0, OutcomeOf(s))
  {
    AllGone(s);
    ReturnedCalls(ops, s);
    ReturnedCounts(s);
    ReturnedLeaves(s);
  }

  lemma ReturnedLeaves<W>(s: State<W>)
    requires LeavesConserved(s) && s.errChan == [] && forall i :: 0 <= i < |s.routines| ==> s.routines[i].stage == Gone
    ensures LeavesOfOption(s.rerr) == Total(s.calls, CallLeaves)
  {
    TotalEmpty(s.routines, OwesLeaves);
  }

  /** The scheduler may pick any move that is enabled. */
  method ConcurrentExec<W>(ops: seq<Operand>, call: Behaviour<W>, w0: W) returns (out: StepOutcome<W>)
    ensures ConcurrentStep(ops, call, w0, out)
  {
    var s := Start(ops, w0);
    InvStart(ops, call, w0);
    while s.main != Returned
      invariant Inv(ops, call, w0, s)
      decreases Sum(s.routines, StagesLeft), MainLeft(s.main), |s.errChan|
    {
      ghost var some := NeverStuck(s);
      var m :| Enabled(s, m);
      InvKept(ops, call, w0, s, m);
      MovesRunOut(call, s, m);
      s := Next(call, s, m);
    }
    ReturnedOutcome(ops, call, w0, s);
    return StepOutcome(s.calls, s.changed, s.rerr, s.world);
  }
}
