/** Serial and concurrent execution agree when the operands of a step do not depend on one another. */
module Agreement {
  import opened Collections
  import opened Operands
  import opened Executor
  import opened Goroutines
  import opened Execution

  /** Calling a does not change what b returns, and the order of the two calls does not change the world. */
  ghost predicate Independent<W(!new)>(call: Behaviour<W>, a: Operand, b: Operand) {
    forall w: W {:trigger call(a, w), call(b, w)} ::
      && call(b, call(a, w).world).event == call(b, w).event
      && call(b, call(a, w).world).err == call(b, w).err
      && call(b, call(a, w).world).world == call(a, call(b, w).world).world
  }

  ghost predicate AllIndependent<W(!new)>(call: Behaviour<W>, ops: seq<Operand>) {
    forall a, b :: a in ops && b in ops && a != b ==> Independent(call, a, b)
  }

  /** Each call returns what it would have returned had it been made first. */
  lemma {:induction false} CallsAsIfFirst<W(!new)>(ops: seq<Operand>, call: Behaviour<W>, w: W, i: nat)
    requires NoDup(ops) && AllIndependent(call, ops) && i < |ops|
    ensures |CallAll(ops, call, w).0| == |ops|
    ensures CallAll(ops, call, w).0[i] == CallOf(ops[i], call(ops[i], w))
    decreases ops
  {
    var w1 := call(ops[0], w).world;
    var rest := ops[1..];
    if |rest| > 0 {
      assert forall x :: x in rest ==> x in ops;
      CallsAsIfFirst(rest, call, w1, if i == 0 then 0 else i - 1);
      if i > 0 {
        assert Independent(call, ops[0], ops[i]);
        assert CallAll(ops, call, w).0[i] == CallAll(rest, call, w1).0[i - 1];
        assert call(ops[i], w1).event == call(ops[i], w).event && call(ops[i], w1).err == call(ops[i], w).err;
      }
    } else {
      assert CallAll(rest, call, w1).0 == [];
    }
  }

  /** An operand may be called first without changing the world in the end. */
  lemma {:induction false} CallFirst<W(!new)>(ops: seq<Operand>, k: nat, call: Behaviour<W>, w: W)
    requires NoDup(ops) && AllIndependent(call, ops) && k < |ops|
    ensures CallAll(ops, call, w).1 == CallAll(ops[..k] + ops[k + 1..], call, call(ops[k], w).world).1
    decreases k
  {
    if k == 0 {
      assert ops[..0] + ops[1..] == ops[1..];
    } else {
      var rest := ops[1..];
      var w1 := call(ops[0], w).world;
      assert forall x :: x in rest ==> x in ops;
      CallFirst(rest, k - 1, call, w1);
      assert Independent(call, ops[0], ops[k]);
      var others := ops[..k] + ops[k + 1..];
      assert others[1..] == rest[..k - 1] + rest[k..];
      var wk := call(ops[k], w).world;
      assert CallAll(others, call, wk).1 == CallAll(others[1..], call, call(ops[0], wk).world).1;
      assert call(ops[k], w1).world == call(ops[0], wk).world by {
        var rk := call(ops[k], w);
      }
    }
  }

  lemma {:induction false} NoDupCounts<T>(s: seq<T>)
    ensures NoDup(s) <==> forall x :: multiset(s)[x] <= 1
  {
    if s != [] {
      var init, last := s[..|s| - 1], s[|s| - 1];
      NoDupCounts(init);
      assert s == init + [last];
      assert forall x :: multiset(s)[x] == multiset(init)[x] + if x == last then 1 else 0;
      if last in init {
        assert multiset(s)[last] >= 2;
      }
    }
  }

  ghost function Without<T>(s: seq<T>, k: nat): seq<T>
    requires k < |s|
  {
    s[..k] + s[k + 1..]
  }

  lemma WithoutCounts<T>(s: seq<T>, k: nat)
    requires k < |s|
    ensures multiset(Without(s, k)) == multiset(s) - multiset{s[k]}
  {
    assert s == s[..k] + [s[k]] + s[k + 1..];
  }

  lemma WithoutNoDup<T>(s: seq<T>, k: nat)
    requires k < |s| && NoDup(s)
    ensures NoDup(Without(s, k))
  {
  }

  lemma WithoutFirst<T>(p: seq<T>, q: seq<T>) returns (k: nat)
    requires multiset(p) == multiset(q) && p != []
    ensures k < |q| && q[k] == p[0] && multiset(p[1..]) == multiset(Without(q, k))
  {
    assert p[0] in multiset(q);
    k :| 0 <= k < |q| && q[k] == p[0];
    WithoutCounts(p, 0);
    WithoutCounts(q, k);
    assert Without(p, 0) == p[1..];
  }

  /** Any order of the calls leaves the same world. */
  lemma {:induction false} SameWorld<W(!new)>(p: seq<Operand>, q: seq<Operand>, call: Behaviour<W>, w: W)
    requires multiset(p) == multiset(q) && NoDup(p) && NoDup(q) && AllIndependent(call, p)
    ensures CallAll(p, call, w).1 == CallAll(q, call, w).1
    decreases |p|
  {
    if p == [] {
      assert |q| == |multiset(q)| == 0;
    } else {
      var k := WithoutFirst(p, q);
      SameMembers(p, q);
      CallFirst(q, k, call, w);
      WithoutNoDup(q, k);
      assert forall x :: x in p[1..] ==> x in p;
      SameWorld(p[1..], Without(q, k), call, call(p[0], w).world);
    }
  }

  /** On a step of independent operands both strategies fail together; when they do not fail they
      report the same change and leave the same world. */
  lemma StepsAgree<W(!new)>(ops: seq<Operand>, call: Behaviour<W>, w: W, out: StepOutcome<W>)
    requires NoDup(ops) && AllIndependent(call, ops) && ConcurrentStep(ops, call, w, out)
    ensures var serial := SerialStep(ops, call, w);
            && (serial.err.None? <==> out.err.None?)
            && (out.err.None? ==> serial.changed == out.changed && serial.world == out.world)
  {
    var perm := OpsOf(out.calls);
    NoDupCounts(ops);
    NoDupCounts(perm);
    SameMembers(ops, perm);
    forall i | 0 <= i < |perm| ensures out.calls[i] == CallOf(perm[i], call(perm[i], w)) {
      CallsAsIfFirst(perm, call, w, i);
    }
    SerialOutcome(ops, call, w);
    SameWorld(ops, perm, call, w);
    SameCalls(ops, perm, call, w, out.calls);
  }

  lemma SameCalls<W(!new)>(ops: seq<Operand>, perm: seq<Operand>, call: Behaviour<W>, w: W, calls: seq<Call>)
    requires (forall x :: x in ops <==> x in perm) && |calls| == |perm|
    requires forall i :: 0 <= i < |perm| ==> calls[i] == CallOf(perm[i], call(perm[i], w))
    ensures (forall x :: x in ops ==> call(x, w).err.None?) <==> forall i :: 0 <= i < |calls| ==> calls[i].err.None?
    ensures (exists x :: x in ops && call(x, w).event) <==> exists i :: 0 <= i < |calls| && calls[i].event
  {
    if x :| x in ops && call(x, w).err.Some? {
      var i :| 0 <= i < |perm| && perm[i] == x;
      assert calls[i].err.Some?;
    }
    if x :| x in ops && call(x, w).event {
      var i :| 0 <= i < |perm| && perm[i] == x;
      assert calls[i].event;
    }
    if i :| 0 <= i < |calls| && calls[i].event {
      assert perm[i] in ops;
    }
    if i :| 0 <= i < |calls| && calls[i].err.Some? {
      assert perm[i] in ops;
    }
  }

  /** The serial step on independent operands, in terms of what each call returns on the first world. */
  lemma {:induction false} SerialOutcome<W(!new)>(ops: seq<Operand>, call: Behaviour<W>, w: W)
    requires NoDup(ops) && AllIndependent(call, ops)
    ensures var out := SerialStep(ops, call, w);
            && (out.err.None? <==> forall x :: x in ops ==> call(x, w).err.None?)
            && (out.err.None? ==> out.world == CallAll(ops, call, w).1)
            && (out.err.None? ==> (out.changed <==> exists x :: x in ops && call(x, w).event))
    decreases ops
  {
    if ops != [] {
      var r := call(ops[0], w);
      var rest := ops[1..];
      assert forall x :: x in ops <==> x == ops[0] || x in rest;
      SerialOutcome(rest, call, r.world);
      forall x | x in rest
        ensures call(x, r.world).err == call(x, w).err && call(x, r.world).event == call(x, w).event
      {
        assert Independent(call, ops[0], x);
      }
    }
  }

  ghost predicate IndependentSteps<W(!new)>(call: Behaviour<W>, order: OperandOrder) {
    forall i :: 0 <= i < |order| ==> NoDup(order[i]) && AllIndependent(call, order[i])
  }

  /** Two outcomes fail together, and otherwise report the same change and leave the same world. */
  ghost predicate Alike<W>(a: StepOutcome<W>, b: StepOutcome<W>) {
    && (a.err.None? <==> b.err.None?)
    && (a.err.None? ==> a.changed == b.changed && a.world == b.world)
  }

  ghost predicate AlikeSteps<W(!new)>(may1: StepRelation<W>, may2: StepRelation<W>, order: OperandOrder) {
    forall i, w, a, b {:trigger may1(order[i], w, a), may2(order[i], w, b)} ::
      0 <= i < |order| && may1(order[i], w, a) && may2(order[i], w, b) ==> Alike(a, b)
  }

  lemma {:induction false} LogsAlike<W(!new)>(may1: StepRelation<W>, may2: StepRelation<W>, order: OperandOrder, w0: W,
                                              log1: seq<StepOutcome<W>>, log2: seq<StepOutcome<W>>, i: nat)
    requires AlikeSteps(may1, may2, order) && i < |log1| && i < |log2|
    requires Prefix(may1, order, w0, log1) && Prefix(may2, order, w0, log2)
    ensures Alike(log1[i], log2[i])
    decreases i
  {
    if i > 0 {
      LogsAlike(may1, may2, order, w0, log1, log2, i - 1);
      assert Clean(order[i - 1], log1[i - 1]);
    }
    var w := WorldBefore(w0, log1, i);
    assert w == WorldBefore(w0, log2, i);
    assert may1(order[i], w, log1[i]) && may2(order[i], w, log2[i]);
  }

  lemma RunsAlike<W(!new)>(may1: StepRelation<W>, may2: StepRelation<W>, order: OperandOrder, w0: W, e1: Executed<W>,
                           e2: Executed<W>)
    requires AlikeSteps(may1, may2, order)
    requires Stepwise(may1, order, w0, e1) && Stepwise(may2, order, w0, e2)
    ensures |e1.log| == |e2.log| && e1.requeue == e2.requeue
    ensures forall i :: 0 <= i < |e1.log| ==> Alike(e1.log[i], e2.log[i])
    ensures e1.err.None? <==> e2.err.None?
    ensures e1.err.None? ==> e1.world == e2.world
  {
    forall i | 0 <= i < |e1.log| && i < |e2.log| ensures Alike(e1.log[i], e2.log[i]) {
      LogsAlike(may1, may2, order, w0, e1.log, e2.log, i);
    }
    NotShorter(may1, may2, order, w0, e1, e2);
    NotShorter(may2, may1, order, w0, e2, e1);
    SameEnd(may1, may2, order, w0, e1, e2);
  }

  lemma SameEnd<W>(may1: StepRelation<W>, may2: StepRelation<W>, order: OperandOrder, w0: W, e1: Executed<W>,
                   e2: Executed<W>)
    requires Stepwise(may1, order, w0, e1) && Stepwise(may2, order, w0, e2) && |e1.log| == |e2.log|
    requires |e1.log| > 0 ==> Alike(e1.log[|e1.log| - 1], e2.log[|e1.log| - 1])
    ensures e1.requeue == e2.requeue && (e1.err.None? <==> e2.err.None?) && (e1.err.None? ==> e1.world == e2.world)
  {
  }

  /** A run cannot stop at a step that was clean in an alike run. */
  lemma NotShorter<W>(may1: StepRelation<W>, may2: StepRelation<W>, order: OperandOrder, w0: W, e1: Executed<W>,
                      e2: Executed<W>)
    requires Stepwise(may1, order, w0, e1) && Stepwise(may2, order, w0, e2)
    requires forall i :: 0 <= i < |e1.log| && i < |e2.log| ==> Alike(e1.log[i], e2.log[i])
    ensures |e1.log| >= |e2.log|
  {
  }

  /** Both strategies execute the same steps, stop at the same step and fail together; without an
      error they ask for the same requeue and leave the same world. */
  lemma StrategiesAgree<W(!new)>(order: OperandOrder, call: Behaviour<W>, w0: W, serial: Executed<W>,
                                 parallel: Executed<W>)
    requires IndependentSteps(call, order)
    requires MayExecute(Serial, order, call, w0, serial) && MayExecute(Parallel, order, call, w0, parallel)
    ensures |serial.log| == |parallel.log| && serial.requeue == parallel.requeue
    ensures forall i :: 0 <= i < |serial.log| ==> Alike(serial.log[i], parallel.log[i])
    ensures serial.err.None? <==> parallel.err.None?
    ensures serial.err.None? ==> serial.world == parallel.world
  {
    var may1, may2 := StepsUnder(Serial, call), StepsUnder(Parallel, call);
    forall i, w, a, b | 0 <= i < |order| && may1(order[i], w, a) && may2(order[i], w, b) ensures Alike(a, b) {
      StepsAgree(order[i], call, w, b);
    }
    RunsAlike(may1, may2, order, w0, serial, parallel);
  }
}
