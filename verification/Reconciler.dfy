/** The composite reconciler and the object it reconciles, as a state machine
    (controller/composite/v1/reconcile.go). */
module Reconciler {
  datatype CleanupStrategy = OwnerReferenceCleanup | FinalizerCleanup

  datatype Config = Config(strategy: CleanupStrategy, finalizer: string)

  /** What the reconciler looks at: whether the status has conditions, the deletion mark, the
      finalizers, and everything else. */
  datatype Obj = Obj(initialized: bool, deleting: bool, finalizers: set<string>, content: int)

  /** Where a reconcile pass stands: not running; past reading and validating version v; about to
      write the initial status, the added finalizer, the removed finalizer or the status. */
  datatype Pc = Idle | Loaded(v: nat) | PutInit(v: nat) | PutAdd(v: nat) | PutRemove(v: nat) | PutStatus(v: nat)

  /** The reconciler ran Operate or Cleanup on version v. */
  datatype Event = Operated(v: nat) | CleanedUp(v: nat, ok: bool)

  /** history holds every version that was stored; the last one is current while the object exists. */
  datatype Sys = Sys(history: seq<Obj>, alive: bool, lastRead: nat, pc: Pc, events: seq<Event>)

  datatype Move =
    | Edit(obj: Obj)               // somebody else updates the object
    | Delete                       // somebody asks for its deletion
    | Read(v: nat)                 // the cached client returns version v
    | ReadFails                    // not found, or a read error
    | Reject                       // validation or the initialization check fails
    | Initialize(ok: bool)
    | AddFinalizer
    | Cleanup(ok: bool)
    | NothingToClean
    | Operate
    | Write(ok: bool, content: int) // the update of the pass; ok == false also stands for no update

  function Current(s: Sys): Obj
    requires s.history != []
  {
    s.history[|s.history| - 1]
  }

  /** The API server stores a version; an object marked for deletion without finalizers is removed. */
  function Store(s: Sys, obj: Obj): Sys {
    s.(history := s.history + [obj], alive := s.alive && !(obj.deleting && obj.finalizers == {}))
  }

  predicate Operates(c: Config, o: Obj) {
    o.initialized && (c.strategy == FinalizerCleanup ==> !o.deleting && c.finalizer in o.finalizers)
  }

  predicate Handles(c: Config, o: Obj, deleting: bool, present: bool) {
    c.strategy == FinalizerCleanup && o.initialized && o.deleting == deleting &&
        (c.finalizer in o.finalizers) == present
  }

  /** What the pass writes when its update is accepted. */
  function Written(c: Config, pc: Pc, o: Obj, content: int): Obj {
    match pc
    case PutInit(_) => o.(initialized := true)
    case PutAdd(_) => o.(finalizers := o.finalizers + {c.finalizer})
    case PutRemove(_) => o.(finalizers := o.finalizers - {c.finalizer})
    case _ => o.(content := content)
  }

  predicate Enabled(c: Config, s: Sys, m: Move) {
    && s.history != []
    && match m
       case Edit(obj) => s.alive && obj.deleting == Current(s).deleting
       case Delete => s.alive
       case Read(v) => s.pc == Idle && s.lastRead <= v < |s.history|
       case ReadFails => s.pc == Idle
       case Reject => s.pc.Loaded?
       case Initialize(_) => s.pc.Loaded? && s.pc.v < |s.history| && !s.history[s.pc.v].initialized
       case AddFinalizer => s.pc.Loaded? && s.pc.v < |s.history| && Handles(c, s.history[s.pc.v], false, false)
       case Cleanup(_) => s.pc.Loaded? && s.pc.v < |s.history| && Handles(c, s.history[s.pc.v], true, true)
       case NothingToClean => s.pc.Loaded? && s.pc.v < |s.history| && Handles(c, s.history[s.pc.v], true, false)
       case Operate => s.pc.Loaded? && s.pc.v < |s.history| && Operates(c, s.history[s.pc.v])
       // An update is accepted only if the version it was made from is still current.
       case Write(ok, _) => s.pc != Idle && !s.pc.Loaded? && (ok ==> s.alive && s.pc.v == |s.history| - 1)
  }

  function Next(c: Config, s: Sys, m: Move): Sys
    requires Enabled(c, s, m)
  {
    match m
    case Edit(obj) => Store(s, obj)
    case Delete => if Current(s).finalizers == {} then s.(alive := false) else Store(s, Current(s).(deleting := true))
    case Read(v) => s.(pc := Loaded(v), lastRead := v)
    case ReadFails => s
    case Reject => s.(pc := Idle)
    case Initialize(ok) => s.(pc := if ok then PutInit(s.pc.v) else Idle)
    case AddFinalizer => s.(pc := PutAdd(s.pc.v))
    case Cleanup(ok) =>
      s.(pc := if ok then PutRemove(s.pc.v) else PutStatus(s.pc.v), events := s.events + [CleanedUp(s.pc.v, ok)])
    case NothingToClean => s.(pc := PutStatus(s.pc.v))
    case Operate => s.(pc := PutStatus(s.pc.v), events := s.events + [Operated(s.pc.v)])
    case Write(ok, content) => (if ok then Store(s, Written(c, s.pc, Current(s), content)) else s).(pc := Idle)
  }

  /** Nobody but the reconciler removes its finalizer. */
  predicate Respects(c: Config, s: Sys, m: Move) {
    m.Edit? && s.history != [] ==> (c.finalizer in Current(s).finalizers ==> c.finalizer in m.obj.finalizers)
  }

  ghost predicate Run(c: Config, run: seq<Sys>, moves: seq<Move>) {
    && |run| == |moves| + 1
    && Fresh(run[0])
    && forall k :: 0 <= k < |moves| ==> Enabled(c, run[k], moves[k]) && run[k + 1] == Next(c, run[k], moves[k])
  }

  /** An object that has just been created: no deletion mark, nothing done yet. */
  predicate Fresh(s: Sys) {
    |s.history| == 1 && !s.history[0].deleting && s.alive && s.lastRead == 0 && s.pc == Idle && s.events == []
  }

  // ---------- what every move keeps ----------

  ghost predicate VersionsInOrder(s: Sys) {
    && s.history != [] && s.lastRead < |s.history|
    && (s.pc != Idle ==> s.pc.v == s.lastRead)
    && (forall i, j :: 0 <= i < j < |s.history| && s.history[i].deleting ==> s.history[j].deleting)
  }

  ghost predicate EventsInOrder(c: Config, s: Sys) {
    && (forall k :: 0 <= k < |s.events| ==> s.events[k].v <= s.lastRead)
    && (forall k, l :: 0 <= k < l < |s.events| ==> s.events[k].v <= s.events[l].v)
    && (forall k :: 0 <= k < |s.events| && s.events[k].v < |s.history| ==>
          if s.events[k].Operated? then Operates(c, s.history[s.events[k].v])
          else Handles(c, s.history[s.events[k].v], true, true))
  }

  lemma VersionsKept(c: Config, s: Sys, m: Move)
    requires VersionsInOrder(s) && Enabled(c, s, m)
    ensures VersionsInOrder(Next(c, s, m))
    ensures forall i :: 0 <= i < |s.history| ==> i < |Next(c, s, m).history| && Next(c, s, m).history[i] == s.history[i]
  {
    var s', n := Next(c, s, m), |s.history|;
    forall i, j | 0 <= i < j < |s'.history| && s'.history[i].deleting ensures s'.history[j].deleting {
      if j == n && i < n - 1 {
        assert s.history[n - 1].deleting;
      }
    }
  }

  lemma EventsKept(c: Config, s: Sys, m: Move)
    requires VersionsInOrder(s) && EventsInOrder(c, s) && Enabled(c, s, m)
    ensures EventsInOrder(c, Next(c, s, m))
  {
    VersionsKept(c, s, m);
  }

  lemma {:induction false} RunInOrder(c: Config, run: seq<Sys>, moves: seq<Move>, k: nat)
    requires Run(c, run, moves) && k < |run|
    ensures VersionsInOrder(run[k]) && EventsInOrder(c, run[k])
    decreases k
  {
    if k > 0 {
      RunInOrder(c, run, moves, k - 1);
      VersionsKept(c, run[k - 1], moves[k - 1]);
      EventsKept(c, run[k - 1], moves[k - 1]);
    }
  }

  /** Over every run with finalizer cleanup, Operate runs only on a version that is initialized, not
      marked for deletion and carries the finalizer; Cleanup only on a marked version that carries it;
      and no Operate follows a Cleanup. */
  lemma OperateBeforeCleanup(c: Config, run: seq<Sys>, moves: seq<Move>, n: nat, k: nat)
    requires Run(c, run, moves) && n < |run| && k < |run[n].events|
    ensures run[n].events[k].v < |run[n].history|
    ensures var e, o := run[n].events[k], run[n].history[run[n].events[k].v];
            && (e.Operated? ==>
                  o.initialized && (c.strategy == FinalizerCleanup ==> !o.deleting && c.finalizer in o.finalizers))
            && (e.CleanedUp? ==>
                  c.strategy == FinalizerCleanup && o.initialized && o.deleting && c.finalizer in o.finalizers)
    ensures run[n].events[k].CleanedUp? ==> forall l :: k < l < |run[n].events| ==> run[n].events[l].CleanedUp?
  {
    RunInOrder(c, run, moves, n);
    var s := run[n];
    if s.events[k].CleanedUp? {
      forall l | k < l < |s.events| ensures s.events[l].CleanedUp? {
        assert Handles(c, s.history[s.events[k].v], true, true);
        assert s.events[k].v <= s.events[l].v;
      }
    }
  }

  // ---------- the finalizer holds the object ----------

  ghost predicate CleanupSucceeded(s: Sys) {
    exists k :: 0 <= k < |s.events| && s.events[k].CleanedUp? && s.events[k].ok
  }

  /** Until a cleanup succeeds, the finalizer stays once it is there, and with it the object. */
  ghost predicate Held(c: Config, s: Sys) {
    && (s.pc.PutRemove? ==> CleanupSucceeded(s))
    && (!s.alive ==> CleanupSucceeded(s) || (s.history != [] && Current(s).finalizers == {}))
    && (!CleanupSucceeded(s) ==> forall i, j :: 0 <= i < j < |s.history| && c.finalizer in s.history[i].finalizers ==>
          c.finalizer in s.history[j].finalizers)
  }

  lemma HeldKept(c: Config, s: Sys, m: Move)
    requires VersionsInOrder(s) && Held(c, s) && Enabled(c, s, m) && Respects(c, s, m)
    ensures Held(c, Next(c, s, m))
  {
    var s', n := Next(c, s, m), |s.history|;
    if CleanupSucceeded(s) {
      var k :| 0 <= k < |s.events| && s.events[k].CleanedUp? && s.events[k].ok;
      assert s'.events[k] == s.events[k];
    }
    if m == Cleanup(true) {
      assert s'.events[|s.events|] == CleanedUp(s.pc.v, true);
    }
    if !CleanupSucceeded(s') {
      forall i, j | 0 <= i < j < |s'.history| && c.finalizer in s'.history[i].finalizers
        ensures c.finalizer in s'.history[j].finalizers
      {
        if j == n && i < n - 1 {
          assert c.finalizer in s.history[n - 1].finalizers;
        }
      }
    }
  }

  lemma {:induction false} RunHeld(c: Config, run: seq<Sys>, moves: seq<Move>, k: nat)
    requires Run(c, run, moves) && k < |run| && forall i :: 0 <= i < |moves| ==> Respects(c, run[i], moves[i])
    ensures VersionsInOrder(run[k]) && Held(c, run[k])
    decreases k
  {
    RunInOrder(c, run, moves, k);
    if k > 0 {
      RunHeld(c, run, moves, k - 1);
      HeldKept(c, run[k - 1], moves[k - 1]);
    }
  }

  /** If nobody else strips the finalizer, an object on which Operate ran under finalizer cleanup can
      disappear only once some Cleanup has returned no error. */
  lemma GoneOnlyAfterCleanup(c: Config, run: seq<Sys>, moves: seq<Move>, n: nat, k: nat)
    requires c.strategy == FinalizerCleanup
    requires Run(c, run, moves) && n < |run| && forall i :: 0 <= i < |moves| ==> Respects(c, run[i], moves[i])
    requires k < |run[n].events| && run[n].events[k].Operated? && !run[n].alive
    ensures CleanupSucceeded(run[n])
  {
    RunInOrder(c, run, moves, n);
    RunHeld(c, run, moves, n);
    var s := run[n];
    var v := s.events[k].v;
    assert Operates(c, s.history[v]);
  }
}
