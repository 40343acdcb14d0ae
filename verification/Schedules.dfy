/** Every order of the calls of a concurrent step is the order of some schedule. */
module Schedules {
  import opened Collections
  import opened Operands
  import opened Executor
  import opened Goroutines

  /** The state that the moves lead to from the start, if each of them is enabled in its turn. */
  ghost function After<W>(ops: seq<Operand>, call: Behaviour<W>, w0: W, moves: seq<Move>): Option<State<W>> {
    if moves == [] then Some(Start(ops, w0)) else
      var s := After(ops, call, w0, moves[..|moves| - 1]);
      if s.Some? && Enabled(s.value, moves[|moves| - 1]) then Some(Next(call, s.value, moves[|moves| - 1])) else None
  }

  /** Such moves are a run. */
  lemma {:induction false} RunOf<W>(ops: seq<Operand>, call: Behaviour<W>, w0: W, moves: seq<Move>)
    returns (run: seq<State<W>>)
    requires After(ops, call, w0, moves).Some?
    ensures Run(ops, call, w0, run, moves) && run[|run| - 1] == After(ops, call, w0, moves).value
    decreases moves
  {
    if moves == [] {
      run := [Start(ops, w0)];
    } else {
      var init, last := moves[..|moves| - 1], moves[|moves| - 1];
      var before := RunOf(ops, call, w0, init);
      assert moves == init + [last];
      RunSnoc(ops, call, w0, before, init, last);
      run := before + [Next(call, before[|before| - 1], last)];
    }
  }

  lemma RunSnoc<W>(ops: seq<Operand>, call: Behaviour<W>, w0: W, run: seq<State<W>>, moves: seq<Move>, m: Move)
    requires Run(ops, call, w0, run, moves) && Enabled(run[|run| - 1], m)
    ensures Run(ops, call, w0, run + [Next(call, run[|run| - 1], m)], moves + [m])
  {
    var run', moves' := run + [Next(call, run[|run| - 1], m)], moves + [m];
    forall k | 0 <= k < |moves'| ensures Enabled(run'[k], moves'[k]) && run'[k + 1] == Next(call, run'[k], moves'[k]) {
      assert run'[k] == run[k];
      if k < |moves| {
        assert moves'[k] == moves[k] && run'[k + 1] == run[k + 1];
      }
    }
  }

  lemma OneMore<W>(ops: seq<Operand>, call: Behaviour<W>, w0: W, moves: seq<Move>, s: State<W>, m: Move)
    requires After(ops, call, w0, moves) == Some(s) && Enabled(s, m)
    ensures After(ops, call, w0, moves + [m]) == Some(Next(call, s, m))
  {
    assert (moves + [m])[..|moves|] == moves;
  }

  lemma AfterInv<W>(ops: seq<Operand>, call: Behaviour<W>, w0: W, moves: seq<Move>)
    requires After(ops, call, w0, moves).Some?
    ensures Inv(ops, call, w0, After(ops, call, w0, moves).value)
  {
    var run := RunOf(ops, call, w0, moves);
    RunInv(ops, call, w0, run, moves, |run| - 1);
  }

  /** The part of the invariant that says when a move is possible. */
  lemma AfterPhases<W>(ops: seq<Operand>, call: Behaviour<W>, w0: W, moves: seq<Move>, s: State<W>)
    requires After(ops, call, w0, moves) == Some(s)
    ensures Phases(s) && Counters(s)
  {
    AfterInv(ops, call, w0, moves);
  }

  /** The first k goroutines are started. */
  ghost predicate Spawned<W>(ops: seq<Operand>, s: State<W>, k: nat) {
    && |s.routines| == |ops| && s.main == Spawning(k) && k <= |ops| && s.calls == []
    && forall i :: 0 <= i < |ops| ==> s.routines[i] == Routine(ops[i], if i < k then Ready else Unspawned)
  }

  lemma {:induction false} SpawnUpTo<W>(ops: seq<Operand>, call: Behaviour<W>, w0: W, k: nat)
    returns (moves: seq<Move>, s: State<W>)
    requires k <= |ops|
    ensures After(ops, call, w0, moves) == Some(s) && Spawned(ops, s, k)
    decreases k
  {
    if k == 0 {
      moves, s := [], Start(ops, w0);
    } else {
      moves, s := SpawnUpTo(ops, call, w0, k - 1);
      OneMore(ops, call, w0, moves, s, Spawn);
      moves, s := moves + [Spawn], Next(call, s, Spawn);
    }
  }

  ghost predicate Indices(order: seq<nat>, n: nat) {
    NoDup(order) && forall j :: 0 <= j < |order| ==> order[j] < n
  }

  /** The goroutines of the first k indices of the order are gone, the others ready, and the calls were
      made in this order. */
  ghost predicate CalledInOrder<W>(ops: seq<Operand>, s: State<W>, order: seq<nat>, k: nat)
    requires k <= |order| && Indices(order, |ops|)
  {
    && |s.routines| == |ops| && s.main == Waiting && |s.calls| == k
    && (forall j :: 0 <= j < k ==> s.calls[j].op == ops[order[j]])
    && (forall i :: 0 <= i < |ops| ==>
         s.routines[i].op == ops[i] && (s.routines[i].stage == if i in order[..k] then Gone else Ready))
  }

  /** A goroutine that is ready runs to its end while the others stand still. */
  lemma RunAlone<W>(ops: seq<Operand>, call: Behaviour<W>, w0: W, moves: seq<Move>, s: State<W>, i: nat)
    returns (moves': seq<Move>, t: State<W>)
    requires After(ops, call, w0, moves) == Some(s) && i < |s.routines| && s.routines[i].stage == Ready
    ensures After(ops, call, w0, moves') == Some(t) && t.main == s.main
    ensures t.routines == s.routines[i := s.routines[i].(stage := Gone)]
    ensures |t.calls| == |s.calls| + 1 && t.calls[..|s.calls|] == s.calls && t.calls[|s.calls|].op == s.routines[i].op
  {
    OneMore(ops, call, w0, moves, s, CallOperand(i));
    moves', t := moves + [CallOperand(i)], Next(call, s, CallOperand(i));
    AfterPhases(ops, call, w0, moves', t);
    NoSendBlocked(t, i);
    moves', t := Send(ops, call, w0, moves', t, i);
  }

  /** From the first send on. */
  lemma Send<W>(ops: seq<Operand>, call: Behaviour<W>, w0: W, moves: seq<Move>, s: State<W>, i: nat)
    returns (moves': seq<Move>, t: State<W>)
    requires After(ops, call, w0, moves) == Some(s) && Enabled(s, SendErr(i))
    ensures After(ops, call, w0, moves') == Some(t) && t.main == s.main && t.calls == s.calls
    ensures i < |s.routines| && t.routines == s.routines[i := s.routines[i].(stage := Gone)]
  {
    OneMore(ops, call, w0, moves, s, SendErr(i));
    moves', t := moves + [SendErr(i)], Next(call, s, SendErr(i));
    AfterPhases(ops, call, w0, moves', t);
    NoSendBlocked(t, i);
    OneMore(ops, call, w0, moves', t, SendResult(i));
    moves', t := moves' + [SendResult(i)], Next(call, t, SendResult(i));
    OneMore(ops, call, w0, moves', t, Done(i));
    moves', t := moves' + [Done(i)], Next(call, t, Done(i));
  }

  lemma {:induction false} CallUpTo<W>(ops: seq<Operand>, call: Behaviour<W>, w0: W, order: seq<nat>, k: nat)
    returns (moves: seq<Move>, s: State<W>)
    requires k <= |order| && Indices(order, |ops|)
    ensures After(ops, call, w0, moves) == Some(s) && CalledInOrder(ops, s, order, k)
    decreases k
  {
    if k == 0 {
      moves, s := AllSpawned(ops, call, w0);
    } else {
      var before: State<W>;
      moves, before := CallUpTo(ops, call, w0, order, k - 1);
      NextIsReady(ops, before, order, k - 1);
      moves, s := RunAlone(ops, call, w0, moves, before, order[k - 1]);
      OneMoreCalled(ops, before, s, order, k);
    }
  }

  lemma NextIsReady<W>(ops: seq<Operand>, s: State<W>, order: seq<nat>, k: nat)
    requires k < |order| && Indices(order, |ops|) && CalledInOrder(ops, s, order, k)
    ensures order[k] < |s.routines| && s.routines[order[k]].stage == Ready && s.routines[order[k]].op == ops[order[k]]
  {
    assert order[k] !in order[..k];
  }

  lemma AllSpawned<W>(ops: seq<Operand>, call: Behaviour<W>, w0: W) returns (moves: seq<Move>, s: State<W>)
    ensures After(ops, call, w0, moves) == Some(s) && |s.routines| == |ops| && s.main == Waiting && s.calls == []
    ensures forall i :: 0 <= i < |ops| ==> s.routines[i] == Routine(ops[i], Ready)
  {
    moves, s := SpawnUpTo(ops, call, w0, |ops|);
    OneMore(ops, call, w0, moves, s, Spawn);
    moves, s := moves + [Spawn], Next(call, s, Spawn);
  }

  lemma OneMoreCalled<W>(ops: seq<Operand>, s: State<W>, t: State<W>, order: seq<nat>, k: nat)
    requires 0 < k <= |order| && Indices(order, |ops|) && CalledInOrder(ops, s, order, k - 1)
    requires t.main == s.main && t.routines == s.routines[order[k - 1] := s.routines[order[k - 1]].(stage := Gone)]
    requires |t.calls| == k && t.calls[..k - 1] == s.calls && t.calls[k - 1].op == ops[order[k - 1]]
    ensures CalledInOrder(ops, t, order, k)
  {
    assert order[..k] == order[..k - 1] + [order[k - 1]];
    forall j | 0 <= j < k ensures t.calls[j].op == ops[order[j]] {
      assert j < k - 1 ==> t.calls[j] == s.calls[j];
    }
  }

  /** After wg.Wait the rest is a matter of concurrentExec alone and makes no call. */
  lemma {:induction false} Finish<W>(ops: seq<Operand>, call: Behaviour<W>, w0: W, moves: seq<Move>, s: State<W>)
    returns (moves': seq<Move>, t: State<W>)
    requires After(ops, call, w0, moves) == Some(s) && s.main in {Closing, Draining, Checking, Returned}
    ensures After(ops, call, w0, moves') == Some(t) && t.main == Returned && t.calls == s.calls
    decreases MainLeft(s.main), |s.errChan|
  {
    if s.main == Returned {
      moves', t := moves, s;
    } else {
      AfterPhases(ops, call, w0, moves, s);
      var m := match s.main
               case Closing => CloseErrs
               case Draining => if s.errChan == [] then StopReceiving else Receive
               case _ => CheckResults;
      OneMore(ops, call, w0, moves, s, m);
      moves', t := Finish(ops, call, w0, moves + [m], Next(call, s, m));
    }
  }

  /** Whatever order of the operands is given, some schedule calls them in this order and returns. */
  lemma AnyOrder<W>(ops: seq<Operand>, call: Behaviour<W>, w0: W, order: seq<nat>)
    returns (run: seq<State<W>>, moves: seq<Move>)
    requires |order| == |ops| && Indices(order, |ops|)
    ensures Run(ops, call, w0, run, moves)
    ensures var s := run[|run| - 1];
            && s.main == Returned && |s.calls| == |ops|
            && (forall j :: 0 <= j < |ops| ==> s.calls[j].op == ops[order[j]])
            && ConcurrentStep(ops, call, w0, OutcomeOf(s))
  {
    var s: State<W>;
    moves, s := CallUpTo(ops, call, w0, order, |order|);
    assert order[..|order|] == order;
    forall i | 0 <= i < |ops| ensures s.routines[i].stage == Gone {
      AllIndices(order, |ops|, i);
    }
    AfterPhases(ops, call, w0, moves, s);
    AllGone(s);
    OneMore(ops, call, w0, moves, s, PassWait);
    moves, s := Finish(ops, call, w0, moves + [PassWait], Next(call, s, PassWait));
    run := RunOf(ops, call, w0, moves);
    AfterInv(ops, call, w0, moves);
    ReturnedOutcome(ops, call, w0, s);
  }

  ghost function Below(n: nat): (s: set<nat>)
    ensures |s| == n && forall k: nat :: k in s <==> k < n
  {
    if n == 0 then {} else Below(n - 1) + {n - 1}
  }

  /** n different numbers below n are all of them. */
  lemma AllIndices(order: seq<nat>, n: nat, i: nat)
    requires |order| == n && Indices(order, n) && i < n
    ensures i in order
  {
    NoDupCardinality(order);
    var used := set k | k in order;
    if i !in order {
      SubsetCardinality(used, Below(n) - {i});
    }
  }

  /** Of two operands in a step some schedule calls the one before the other: operands that share a step
      are not ordered, even where one requires the other. */
  lemma EitherFirst<W>(ops: seq<Operand>, call: Behaviour<W>, w0: W, i: nat, j: nat)
    returns (run: seq<State<W>>, moves: seq<Move>)
    requires i < |ops| && j < |ops| && i != j
    ensures Run(ops, call, w0, run, moves)
    ensures var s := run[|run| - 1];
            && s.main == Returned && |s.calls| == |ops|
            && s.calls[0].op == ops[i] && (exists k :: 0 < k < |ops| && s.calls[k].op == ops[j])
            && ConcurrentStep(ops, call, w0, OutcomeOf(s))
  {
    var order := seq(|ops|, k requires 0 <= k < |ops| => if k == 0 then i else if k == i then 0 else k);
    run, moves := AnyOrder(ops, call, w0, order);
    var k := if j == 0 then i else j;
    assert order[k] == j;
    assert run[|run| - 1].calls[k].op == ops[j];
  }
}
