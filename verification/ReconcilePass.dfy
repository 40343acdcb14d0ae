/** One reconcile pass as it is written, with its deferred status update
    (controller/composite/v1/reconcile.go, Reconcile and cleanupHandler). */
module ReconcilePass {
  import opened Collections
  import opened Errors
  import opened CompositeOperators
  import opened Reconciler

  /** What the cluster and the controller's functions answer during a pass. An update that is refused
      fails for another reason than a conflict. */
  datatype Answers = Answers(
    read: Option<nat>,              // the version the client returns, if it finds the object
    readErr: Option<Error>,         // otherwise: nothing for not found, or the read error
    validateErr: Option<Error>,
    initCheckErr: Option<Error>,
    initializeErr: Option<Error>,
    cleanup: CtrlResult,
    cleanupErr: Option<Error>,
    operate: CtrlResult,
    operateErr: Option<Error>,
    updateRefused: bool,            // the update of the object, or of its initial status
    updateStatusErr: Option<Error>, // the controller's UpdateStatus
    statusCheckErr: Option<Error>,  // comparing the statuses
    status: int,                    // the status after UpdateStatus
    statusRefused: bool)

  /** The moves lead from s to t. */
  ghost function Execute(c: Config, s: Sys, moves: seq<Move>): Option<Sys> {
    if moves == [] then Some(s) else
      var r := Execute(c, s, moves[..|moves| - 1]);
      if r.Some? && Enabled(c, r.value, moves[|moves| - 1]) then Some(Next(c, r.value, moves[|moves| - 1])) else None
  }

  lemma OneMore(c: Config, s: Sys, moves: seq<Move>, m: Move)
    requires Execute(c, s, moves).Some? && Enabled(c, Execute(c, s, moves).value, m)
    ensures Execute(c, s, moves + [m]) == Some(Next(c, Execute(c, s, moves).value, m))
  {
    assert (moves + [m])[..|moves|] == moves;
  }

  lemma FirstRead(c: Config, s: Sys, v: nat)
    requires Enabled(c, s, Read(v))
    ensures Execute(c, s, [Read(v)]) == Some(s.(pc := Loaded(v), lastRead := v))
  {
    assert Execute(c, s, []) == Some(s);
    OneMore(c, s, [], Read(v));
    assert [] + [Read(v)] == [Read(v)];
  }

  lemma CleanedMove(c: Config, s0: Sys, moves: seq<Move>, s: Sys, ok: bool)
    requires Execute(c, s0, moves) == Some(s) && Enabled(c, s, Cleanup(ok))
    ensures Execute(c, s0, moves + [Cleanup(ok)]) ==
            Some(s.(pc := if ok then PutRemove(s.pc.v) else PutStatus(s.pc.v),
                    events := s.events + [CleanedUp(s.pc.v, ok)]))
  {
    OneMore(c, s0, moves, Cleanup(ok));
  }

  lemma NothingMove(c: Config, s0: Sys, moves: seq<Move>, s: Sys)
    requires Execute(c, s0, moves) == Some(s) && Enabled(c, s, NothingToClean)
    ensures Execute(c, s0, moves + [NothingToClean]) == Some(s.(pc := PutStatus(s.pc.v)))
  {
    OneMore(c, s0, moves, NothingToClean);
  }

  lemma StatusMove(c: Config, s0: Sys, moves: seq<Move>, s: Sys, ok: bool, status: int)
    requires Execute(c, s0, moves) == Some(s) && s.pc.PutStatus? && Enabled(c, s, Write(ok, status))
    ensures Execute(c, s0, moves + [Write(ok, status)]) ==
            Some((if ok then Store(s, Current(s).(content := status)) else s).(pc := Idle))
  {
    OneMore(c, s0, moves, Write(ok, status));
  }

  lemma Rejected(c: Config, s0: Sys, moves: seq<Move>, s: Sys)
    requires Execute(c, s0, moves) == Some(s) && Enabled(c, s, Reject)
    ensures Execute(c, s0, moves + [Reject]) == Some(s.(pc := Idle))
  {
    OneMore(c, s0, moves, Reject);
  }

  /** A hook that succeeds, and an update that does, follow. */
  predicate QuietTail(before: seq<Move>, moves: seq<Move>) {
    && |moves| == |before| + 2 && moves[..|before|] == before
    && moves[|before|] in {AddFinalizer, Cleanup(true), NothingToClean, Operate}
    && moves[|before| + 1].Write? && (moves[|before|] in {NothingToClean, Operate} || moves[|before| + 1].ok)
  }

  lemma TailOf(before: seq<Move>, hook: Move, status: int)
    requires hook in {AddFinalizer, Cleanup(true), NothingToClean, Operate}
    ensures QuietTail(before, before + [hook] + [Write(true, status)])
  {
  }

  /** No error, no refused update. */
  predicate Quiet(a: Answers) {
    && a.read.Some? && a.validateErr.None? && a.initCheckErr.None? && a.initializeErr.None? && a.cleanupErr.None?
    && !a.updateRefused && a.updateStatusErr.None? && a.statusCheckErr.None? && !a.statusRefused
  }

  /** The pass reads the current version and nothing fails; there may be no status to write. */
  predicate QuietMoves(s: Sys, moves: seq<Move>) {
    && |moves| == 3 && s.history != [] && moves[0] == Read(|s.history| - 1)
    && moves[1] in {Initialize(true), AddFinalizer, Cleanup(true), NothingToClean, Operate}
    && moves[2].Write? && (moves[1] in {NothingToClean, Operate} || moves[2].ok)
  }

  /** The error of the deferred block, if it has one; only the text of the cause is kept. A failed
      comparison counts as no change. */
  function StatusError(a: Answers, was: int, conflict: bool): Option<Error> {
    if a.updateStatusErr.Some? then Some(Other("error while updating status"))
    else if a.statusCheckErr.Some? then Some(Other("error while checking for changed status"))
    else if a.status != was && (a.statusRefused || conflict) then Some(Other("error while patching status"))
    else None
  }

  /** What the deferred block makes of the result and the error of the pass: its own error joins the
      other one, and nothing is lost. */
  ghost predicate Deferred(a: Answers, was: int, conflict: bool, r0: CtrlResult, e0: Option<Error>,
                           result: CtrlResult, err: Option<Error>) {
    var own := StatusError(a, was, conflict);
    && result == (if a.updateStatusErr.Some? then CtrlResult(true, 0) else r0)
    && (own.None? ==> err == e0)
    && (own.Some? ==> err.Some? && Leaves(err.value) == LeavesOfOption(e0) + multiset{own.value})
  }

  /** The API object and the reconciler's memory of it. */
  class Reconciled {
    var history: seq<Obj>
    var alive: bool
    var lastRead: nat
    ghost var events: seq<Event>

    constructor (o: Obj)
      requires !o.deleting
      ensures Fresh(View(Idle)) && Current(View(Idle)) == o
    {
      history, alive, lastRead, events := [o], true, 0, [];
    }

    ghost function View(pc: Pc): Sys
      reads this
    {
      Sys(history, alive, lastRead, pc, events)
    }

    /** client.Update: accepted when nothing was stored since the version it was made from. */
    method Update(v: nat, obj: Obj, refused: bool) returns (ok: bool)
      requires history != []
      modifies this`history, this`alive
      ensures ok <==> !refused && old(alive) && v == |old(history)| - 1
      ensures View(Idle) == if ok then Store(old(View(Idle)), obj) else old(View(Idle))
      ensures history == if ok then old(history) + [obj] else old(history)
    {
      ok := !refused && alive && v == |history| - 1;
      if ok {
        alive := alive && !(obj.deleting && obj.finalizers == {});
        history := history + [obj];
      }
    }

    method Reconcile(c: Config, a: Answers) returns (result: CtrlResult, err: Option<Error>, ghost moves: seq<Move>)
      requires history != [] && lastRead < |history|
      requires a.read.Some? ==> lastRead <= a.read.value < |history|
      modifies this
      ensures Execute(c, old(View(Idle)), moves) == Some(View(Idle))
      ensures Quiet(a) && a.read.value == |old(history)| - 1 && old(alive) ==> QuietMoves(old(View(Idle)), moves)
      ensures a.read.None? ==> result == CtrlResult(false, 0) && err == a.readErr
      ensures a.read.Some? ==>
              Returns(c, a, old(history)[a.read.value], a.read.value != |old(history)| - 1 || !old(alive), result, err)
      ensures a.read.None? ==> history == old(history) && events == old(events)
      ensures a.read.Some? ==>
              && Stores(c, a, old(history)[a.read.value], a.read.value != |old(history)| - 1 || !old(alive),
                        old(history), history)
              && events == old(events) + Ran(c, a, old(history)[a.read.value], a.read.value)
    {
      ghost var s0 := View(Idle);
      result, err := CtrlResult(false, 0), None;
      if a.read.None? {
        moves := [];
        return CtrlResult(false, 0), a.readErr, moves;
      }
      var v := a.read.value;
      var instance := history[v];
      lastRead := v;
      moves := [Read(v)];
      FirstRead(c, s0, v);
      assert Execute(c, s0, moves) == Some(View(Loaded(v)));

      if a.validateErr.Some? || a.initCheckErr.Some? {
        Rejected(c, s0, moves, View(Loaded(v)));
        moves := moves + [Reject];
        return CtrlResult(false, 0), if a.validateErr.Some? then a.validateErr else a.initCheckErr, moves;
      }

      if !instance.initialized {
        result, err, moves := InitializeObject(c, a, v, s0, moves);
        return;
      }

      result, err, moves := HandleInitialized(c, a, v, s0, moves);
    }

    /** The first pass over an object gives it its initial status; that the update fails is only logged. */
    method InitializeObject(c: Config, a: Answers, v: nat, ghost s0: Sys, ghost before: seq<Move>)
      returns (result: CtrlResult, err: Option<Error>, ghost moves: seq<Move>)
      requires v < |history| && !history[v].initialized && Execute(c, s0, before) == Some(View(Loaded(v)))
      modifies this`history, this`alive
      ensures err == a.initializeErr && result == if err.Some? then CtrlResult(false, 0) else CtrlResult(true, 0)
      ensures history == if err.None? && !a.updateRefused && old(alive) && v == |old(history)| - 1
                         then old(history) + [old(history)[v].(initialized := true)] else old(history)
      ensures Execute(c, s0, moves) == Some(View(Idle))
      ensures err.None? && !a.updateRefused && v == |old(history)| - 1 && old(alive) ==>
                moves == before + [Initialize(true)] + [Write(true, 0)]
    {
      OneMore(c, s0, before, Initialize(a.initializeErr.None?));
      moves := before + [Initialize(a.initializeErr.None?)];
      if a.initializeErr.Some? {
        return CtrlResult(false, 0), a.initializeErr, moves;
      }
      var ok := Update(v, history[v].(initialized := true), a.updateRefused);
      OneMore(c, s0, moves, Write(ok, 0));
      return CtrlResult(true, 0), None, moves + [Write(ok, 0)];
    }

    /** The part of the pass that is under the deferred status update. */
    method HandleInitialized(c: Config, a: Answers, v: nat, ghost s0: Sys, ghost before: seq<Move>)
      returns (result: CtrlResult, err: Option<Error>, ghost moves: seq<Move>)
      requires v < |history| && history[v].initialized && Execute(c, s0, before) == Some(View(Loaded(v)))
      requires a.validateErr.None? && a.initCheckErr.None?
      modifies this
      ensures Execute(c, s0, moves) == Some(View(Idle))
      ensures |before| == 1 && Quiet(a) && v == |old(history)| - 1 && old(alive) ==> QuietTail(before, moves)
      ensures Returns(c, a, old(history)[v], v != |old(history)| - 1 || !old(alive), result, err)
      ensures Stores(c, a, old(history)[v], v != |old(history)| - 1 || !old(alive), old(history), history)
      ensures events == old(events) + Ran(c, a, old(history)[v], v)
    {
      moves := before;
      if c.strategy == FinalizerCleanup {
        var done;
        done, result, err, moves := HandleFinalizers(c, a, v, s0, before);
        if done {
          return;
        }
      }
      result, err, moves := RunOperate(c, a, v, s0, moves);
    }

    /** The finalizer block. The pass ends with it if the object is being deleted or was updated, and the
        status update is skipped if it was updated. */
    method HandleFinalizers(c: Config, a: Answers, v: nat, ghost s0: Sys, ghost before: seq<Move>)
      returns (done: bool, result: CtrlResult, err: Option<Error>, ghost moves: seq<Move>)
      requires v < |history| && history[v].initialized && c.strategy == FinalizerCleanup
      requires Execute(c, s0, before) == Some(View(Loaded(v)))
      requires a.validateErr.None? && a.initCheckErr.None?
      modifies this
      ensures done <==> !Operates(c, old(history)[v])
      ensures !done ==> View(Loaded(v)) == old(View(Loaded(v))) && moves == before
      ensures done ==> Execute(c, s0, moves) == Some(View(Idle))
      ensures done && Quiet(a) && v == |old(history)| - 1 && old(alive) ==> QuietTail(before, moves)
      ensures done ==> Returns(c, a, old(history)[v], v != |old(history)| - 1 || !old(alive), result, err)
      ensures done ==> Stores(c, a, old(history)[v], v != |old(history)| - 1 || !old(alive), old(history), history)
      ensures done ==> events == old(events) + Ran(c, a, old(history)[v], v)
    {
      var delEnabled, updated, cResult, cErr, handled := CleanupHandler(c, a, v, s0, before);
      result, err, moves := cResult, cErr, handled;
      done := updated || delEnabled || cErr.Some?;
      var skipStatusUpdate := updated;
      if done && !skipStatusUpdate {
        result, err, moves := UpdateStatus(c, a, v, s0, moves, result, err);
      }
    }

    /** Operate, and the deferred status update after it. */
    method RunOperate(c: Config, a: Answers, v: nat, ghost s0: Sys, ghost before: seq<Move>)
      returns (result: CtrlResult, err: Option<Error>, ghost moves: seq<Move>)
      requires v < |history| && Operates(c, history[v]) && Execute(c, s0, before) == Some(View(Loaded(v)))
      modifies this
      ensures Execute(c, s0, moves) == Some(View(Idle))
      ensures exists ok, status :: moves == before + [Operate, Write(ok, status)]
      ensures var stale := v != |old(history)| - 1 || !old(alive);
              && Deferred(a, old(history)[v].content, stale, a.operate, a.operateErr, result, err)
              && StoresStatus(a, old(history)[v], stale, old(history), history)
      ensures events == old(events) + [Operated(v)]
    {
      OneMore(c, s0, before, Operate);
      moves := before + [Operate];
      events := events + [Operated(v)];
      result, err, moves := UpdateStatus(c, a, v, s0, moves, a.operate, a.operateErr);
      ghost var ok, status :| moves == before + [Operate] + [Write(ok, status)];
      assert moves == before + [Operate, Write(ok, status)];
    }

    /** The update of the object with its finalizers changed; that it fails is only logged. */
    method UpdateFinalizers(c: Config, a: Answers, pc: Pc, finalizers: set<string>, ghost s0: Sys,
                            ghost before: seq<Move>)
      returns (ok: bool, ghost moves: seq<Move>)
      requires (pc.PutAdd? || pc.PutRemove?) && pc.v < |history|
      requires pc.PutAdd? ==> finalizers == history[pc.v].finalizers + {c.finalizer}
      requires pc.PutRemove? ==> finalizers == history[pc.v].finalizers - {c.finalizer}
      requires Execute(c, s0, before) == Some(View(pc))
      modifies this`history, this`alive
      ensures ok <==> !a.updateRefused && old(alive) && pc.v == |old(history)| - 1
      ensures moves == before + [Write(ok, 0)]
      ensures Execute(c, s0, moves) == Some(View(Idle))
      ensures history == if ok then old(history) + [old(history)[pc.v].(finalizers := finalizers)] else old(history)
    {
      ok := Update(pc.v, history[pc.v].(finalizers := finalizers), a.updateRefused);
      OneMore(c, s0, before, Write(ok, 0));
      moves := before + [Write(ok, 0)];
    }

    /** The branch for a live object. */
    method AddMissingFinalizer(c: Config, a: Answers, v: nat, ghost s0: Sys, ghost before: seq<Move>)
      returns (updated: bool, ghost moves: seq<Move>)
      requires v < |history| && history[v].initialized && c.strategy == FinalizerCleanup && !history[v].deleting
      requires Execute(c, s0, before) == Some(View(Loaded(v)))
      modifies this`history, this`alive
      ensures updated <==> c.finalizer !in old(history)[v].finalizers
      ensures !updated ==> history == old(history) && alive == old(alive) && moves == before
      ensures var o := old(history)[v];
              updated ==> history == if !a.updateRefused && old(alive) && v == |old(history)| - 1
                                     then old(history) + [o.(finalizers := o.finalizers + {c.finalizer})]
                                     else old(history)
      ensures updated && Quiet(a) && v == |old(history)| - 1 && old(alive) ==> QuietTail(before, moves)
      ensures Execute(c, s0, moves) == Some(View(if updated then Idle else Loaded(v)))
    {
      updated, moves := false, before;
      var obj := history[v];
      if c.finalizer !in obj.finalizers {
        OneMore(c, s0, moves, AddFinalizer);
        moves := moves + [AddFinalizer];
        var ok;
        ok, moves := UpdateFinalizers(c, a, PutAdd(v), obj.finalizers + {c.finalizer}, s0, moves);
        updated := true;
        TailOf(before, AddFinalizer, 0);
      }
    }

    /** The branch for an object that is marked for deletion. */
    method CleanUp(c: Config, a: Answers, v: nat, ghost s0: Sys, ghost before: seq<Move>)
      returns (updated: bool, result: CtrlResult, err: Option<Error>, ghost moves: seq<Move>)
      requires v < |history| && history[v].initialized && c.strategy == FinalizerCleanup && history[v].deleting
      requires Execute(c, s0, before) == Some(View(Loaded(v)))
      modifies this
      ensures err == if c.finalizer in old(history)[v].finalizers then a.cleanupErr else None
      ensures updated <==> c.finalizer in old(history)[v].finalizers && err.None?
      ensures result == if c.finalizer in old(history)[v].finalizers then a.cleanup else CtrlResult(false, 0)
      ensures !updated ==> history == old(history) && alive == old(alive)
      ensures var o := old(history)[v];
              updated ==> history == if !a.updateRefused && old(alive) && v == |old(history)| - 1
                                     then old(history) + [o.(finalizers := o.finalizers - {c.finalizer})]
                                     else old(history)
      ensures lastRead == old(lastRead)
      ensures events == old(events) +
                if c.finalizer in old(history)[v].finalizers then [CleanedUp(v, a.cleanupErr.None?)] else []
      ensures Quiet(a) && v == |old(history)| - 1 && old(alive) ==>
                if updated then QuietTail(before, moves) else moves == before + [NothingToClean]
      ensures Execute(c, s0, moves) == Some(View(if updated then Idle else PutStatus(v)))
    {
      if c.finalizer in history[v].finalizers {
        updated, err, moves := RunCleanup(c, a, v, s0, before);
        return updated, a.cleanup, err, moves;
      }
      NothingMove(c, s0, before, View(Loaded(v)));
      return false, CtrlResult(false, 0), None, before + [NothingToClean];
    }

    /** Cleanup, and the removal of the finalizer unless it failed. */
    method RunCleanup(c: Config, a: Answers, v: nat, ghost s0: Sys, ghost before: seq<Move>)
      returns (updated: bool, err: Option<Error>, ghost moves: seq<Move>)
      requires v < |history| && Handles(c, history[v], true, true)
      requires Execute(c, s0, before) == Some(View(Loaded(v)))
      modifies this
      ensures err == a.cleanupErr && (updated <==> err.None?)
      ensures lastRead == old(lastRead) && events == old(events) + [CleanedUp(v, err.None?)]
      ensures !updated ==> history == old(history) && alive == old(alive)
      ensures var o := old(history)[v];
              updated ==> history == if !a.updateRefused && old(alive) && v == |old(history)| - 1
                                     then old(history) + [o.(finalizers := o.finalizers - {c.finalizer})]
                                     else old(history)
      ensures updated && !a.updateRefused && v == |old(history)| - 1 && old(alive) ==> QuietTail(before, moves)
      ensures Execute(c, s0, moves) == Some(View(if updated then Idle else PutStatus(v)))
    {
      CleanedMove(c, s0, before, View(Loaded(v)), a.cleanupErr.None?);
      moves := before + [Cleanup(a.cleanupErr.None?)];
      events := events + [CleanedUp(v, a.cleanupErr.None?)];
      updated, err := false, a.cleanupErr;
      if err.None? {
        var ok;
        ok, moves := UpdateFinalizers(c, a, PutRemove(v), history[v].finalizers - {c.finalizer}, s0, moves);
        updated := true;
        TailOf(before, Cleanup(true), 0);
      }
    }

    /** Adds the finalizer to a live object; cleans up and removes it from one marked for deletion. */
    method CleanupHandler(c: Config, a: Answers, v: nat, ghost s0: Sys, ghost before: seq<Move>)
      returns (delEnabled: bool, updated: bool, result: CtrlResult, err: Option<Error>, ghost moves: seq<Move>)
      requires v < |history| && history[v].initialized && c.strategy == FinalizerCleanup
      requires Execute(c, s0, before) == Some(View(Loaded(v)))
      modifies this
      ensures delEnabled <==> old(history)[v].deleting
      ensures err == if delEnabled && c.finalizer in old(history)[v].finalizers then a.cleanupErr else None
      ensures updated <==> (c.finalizer in old(history)[v].finalizers) == delEnabled && err.None?
      ensures result == if delEnabled && c.finalizer in old(history)[v].finalizers then a.cleanup
                        else CtrlResult(false, 0)
      ensures !updated ==> history == old(history) && alive == old(alive)
      ensures var o, accepted := old(history)[v], !a.updateRefused && old(alive) && v == |old(history)| - 1;
              updated ==> history == if !accepted then old(history)
                                     else if delEnabled
                                     then old(history) + [o.(finalizers := o.finalizers - {c.finalizer})]
                                     else old(history) + [o.(finalizers := o.finalizers + {c.finalizer})]
      ensures lastRead == old(lastRead) && (!updated && !delEnabled ==> moves == before)
      ensures events == old(events) + if delEnabled && c.finalizer in old(history)[v].finalizers
                                      then [CleanedUp(v, a.cleanupErr.None?)] else []
      ensures Quiet(a) && v == |old(history)| - 1 && old(alive) ==>
                if updated then QuietTail(before, moves)
                else moves == if delEnabled then before + [NothingToClean] else before
      ensures Execute(c, s0, moves) ==
              Some(View(if updated then Idle else if delEnabled then PutStatus(v) else Loaded(v)))
    {
      delEnabled, updated, result, err, moves := false, false, CtrlResult(false, 0), None, before;
      if !history[v].deleting {
        updated, moves := AddMissingFinalizer(c, a, v, s0, before);
      } else {
        delEnabled := true;
        updated, result, err, moves := CleanUp(c, a, v, s0, before);
      }
    }

    /** The deferred block. */
    method UpdateStatus(c: Config, a: Answers, v: nat, ghost s0: Sys, ghost before: seq<Move>, r0: CtrlResult,
                        e0: Option<Error>)
      returns (result: CtrlResult, err: Option<Error>, ghost moves: seq<Move>)
      requires v < |history| && Execute(c, s0, before) == Some(View(PutStatus(v)))
      modifies this`history, this`alive
      ensures Execute(c, s0, moves) == Some(View(Idle))
      ensures exists ok, status :: moves == before + [Write(ok, status)]
      ensures Deferred(a, old(history)[v].content, v != |old(history)| - 1 || !old(alive), r0, e0, result, err)
      ensures history == if && a.updateStatusErr.None? && a.statusCheckErr.None? && a.status != old(history)[v].content
                            && !a.statusRefused && old(alive) && v == |old(history)| - 1
                         then old(history) + [old(history)[v].(content := a.status)] else old(history)
      ensures err.None? <==>
              && e0.None? && a.updateStatusErr.None? && a.statusCheckErr.None?
              && (a.status != old(history)[v].content ==> history != old(history))
    {
      result, err := r0, e0;
      var content := history[v].content;
      ghost var s := View(PutStatus(v));
      if a.updateStatusErr.Some? {
        StatusMove(c, s0, before, s, false, 0);
        AccumulateLeaves(err, Other("error while updating status"));
        return CtrlResult(true, 0), NewAggregate([err, Some(Other("error while updating status"))]),
            before + [Write(false, 0)];
      }
      if a.statusCheckErr.Some? {
        StatusMove(c, s0, before, s, false, 0);
        AccumulateLeaves(err, Other("error while checking for changed status"));
        return result, NewAggregate([err, Some(Other("error while checking for changed status"))]),
            before + [Write(false, 0)];
      }
      var written := false;
      if a.status != content {
        written := Update(v, history[v].(content := a.status), a.statusRefused);
        if !written {
          AccumulateLeaves(err, Other("error while patching status"));
          err := NewAggregate([err, Some(Other("error while patching status"))]);
        }
      }
      StatusMove(c, s0, before, s, written, a.status);
      moves := before + [Write(written, a.status)];
    }
  }

  /** The result and the error of a pass that read object o, which is stale or not. */
  ghost predicate Returns(c: Config, a: Answers, o: Obj, stale: bool, result: CtrlResult, err: Option<Error>) {
    if a.validateErr.Some? then result == CtrlResult(false, 0) && err == a.validateErr
    else if a.initCheckErr.Some? then result == CtrlResult(false, 0) && err == a.initCheckErr
    else if !o.initialized then
      if a.initializeErr.Some? then result == CtrlResult(false, 0) && err == a.initializeErr
      else result == CtrlResult(true, 0) && err.None?
    else if Handles(c, o, false, false) then result == CtrlResult(false, 0) && err.None?
    else if Handles(c, o, true, true) then
      if a.cleanupErr.None? then result == a.cleanup && err.None?
      else Deferred(a, o.content, stale, a.cleanup, a.cleanupErr, result, err)
    else if Handles(c, o, true, false) then Deferred(a, o.content, stale, CtrlResult(false, 0), None, result, err)
    else Deferred(a, o.content, stale, a.operate, a.operateErr, result, err)
  }

  /** What the deferred block stores: the new status, if it differs and nothing stands in the way. */
  ghost predicate StoresStatus(a: Answers, o: Obj, stale: bool, before: seq<Obj>, after: seq<Obj>) {
    after == if && a.updateStatusErr.None? && a.statusCheckErr.None? && a.status != o.content
                && !a.statusRefused && !stale
             then before + [o.(content := a.status)] else before
  }

  /** What a pass that read object o stores, after the versions before. */
  ghost predicate Stores(c: Config, a: Answers, o: Obj, stale: bool, before: seq<Obj>, after: seq<Obj>) {
    var accepted := !a.updateRefused && !stale;
    if a.validateErr.Some? || a.initCheckErr.Some? then after == before
    else if !o.initialized then
      after == if a.initializeErr.None? && accepted then before + [o.(initialized := true)] else before
    else if Handles(c, o, false, false) then
      after == if accepted then before + [o.(finalizers := o.finalizers + {c.finalizer})] else before
    else if Handles(c, o, true, true) && a.cleanupErr.None? then
      after == if accepted then before + [o.(finalizers := o.finalizers - {c.finalizer})] else before
    else StoresStatus(a, o, stale, before, after)
  }

  /** What a pass that read version v, which is object o, ran of the controller. */
  ghost function Ran(c: Config, a: Answers, o: Obj, v: nat): seq<Event> {
    if a.validateErr.Some? || a.initCheckErr.Some? then []
    else if Operates(c, o) then [Operated(v)]
    else if Handles(c, o, true, true) then [CleanedUp(v, a.cleanupErr.None?)]
    else []
  }

  // ---------- passes without disturbance ----------

  /** How many passes the object still needs before Operate can run on it. */
  function Skips(c: Config, o: Obj): nat {
    (if o.initialized then 0 else 1) + (if c.strategy == FinalizerCleanup && c.finalizer !in o.finalizers then 1 else 0)
  }

  lemma ExecuteThree(c: Config, s: Sys, moves: seq<Move>)
    requires |moves| == 3 && Execute(c, s, moves).Some?
    ensures Enabled(c, s, moves[0]) && Enabled(c, Next(c, s, moves[0]), moves[1])
    ensures Enabled(c, Next(c, Next(c, s, moves[0]), moves[1]), moves[2])
    ensures Execute(c, s, moves).value == Next(c, Next(c, Next(c, s, moves[0]), moves[1]), moves[2])
  {
    assert moves[..2][..1] == moves[..1] && moves[..1][..0] == [];
    assert Execute(c, s, moves[..2]).Some? && Execute(c, s, moves[..1]).Some?;
    assert Execute(c, s, []) == Some(s) && moves[..1][0] == moves[0];
  }

  /** A quiet pass over a live object either brings it one pass closer to Operate, or runs Operate. */
  lemma QuietPassOperates(c: Config, s: Sys, moves: seq<Move>)
    requires VersionsInOrder(s) && s.pc == Idle && s.alive && !Current(s).deleting
    requires QuietMoves(s, moves) && Execute(c, s, moves).Some?
    ensures var t := Execute(c, s, moves).value;
            && VersionsInOrder(t) && t.pc == Idle && t.alive && !Current(t).deleting
            && Skips(c, Current(t)) == (if Skips(c, Current(s)) == 0 then 0 else Skips(c, Current(s)) - 1)
            && t.events == s.events + (if Skips(c, Current(s)) == 0 then [Operated(|s.history| - 1)] else [])
  {
    ExecuteThree(c, s, moves);
    VersionsKept(c, s, moves[0]);
    VersionsKept(c, Next(c, s, moves[0]), moves[1]);
    VersionsKept(c, Next(c, Next(c, s, moves[0]), moves[1]), moves[2]);
  }

  /** Passes over the object one after the other. */
  ghost predicate QuietPasses(c: Config, states: seq<Sys>, passes: seq<seq<Move>>) {
    && |states| == |passes| + 1
    && forall i :: 0 <= i < |passes| ==>
         QuietMoves(states[i], passes[i]) && Execute(c, states[i], passes[i]) == Some(states[i + 1])
  }

  /** At most two passes over a live object do not run Operate; every pass after them does. */
  lemma {:induction false} QuietPassesOperate(c: Config, states: seq<Sys>, passes: seq<seq<Move>>, n: nat)
    requires QuietPasses(c, states, passes) && n < |states|
    requires VersionsInOrder(states[0]) && states[0].pc == Idle && states[0].alive && !Current(states[0]).deleting
    ensures VersionsInOrder(states[n]) && states[n].pc == Idle && states[n].alive && !Current(states[n]).deleting
    ensures var k := Skips(c, Current(states[0]));
            && k <= 2
            && Skips(c, Current(states[n])) == (if n < k then k - n else 0)
            && |states[n].events| == |states[0].events| + (if n < k then 0 else n - k)
    ensures forall i :: |states[0].events| <= i < |states[n].events| ==> states[n].events[i].Operated?
    decreases n
  {
    if n > 0 {
      QuietPassesOperate(c, states, passes, n - 1);
      assert QuietMoves(states[n - 1], passes[n - 1]) && Execute(c, states[n - 1], passes[n - 1]) == Some(states[n]);
      QuietPassOperates(c, states[n - 1], passes[n - 1]);
    }
  }

  /** The first quiet pass over an initialized object that is marked for deletion cleans up and removes
      the finalizer; if it was the last finalizer, the object is gone. */
  lemma QuietPassReleases(c: Config, s: Sys, moves: seq<Move>)
    requires VersionsInOrder(s) && s.pc == Idle && s.alive && Handles(c, Current(s), true, true)
    requires QuietMoves(s, moves) && Execute(c, s, moves).Some?
    ensures var t := Execute(c, s, moves).value;
            && t.events == s.events + [CleanedUp(|s.history| - 1, true)]
            && t.history != [] && Current(t).finalizers == Current(s).finalizers - {c.finalizer}
            && (t.alive <==> Current(s).finalizers != {c.finalizer})
  {
    ExecuteThree(c, s, moves);
  }
}
