/** Errors as the operands return them and as they are aggregated (k8s.io/apimachinery/pkg/util/errors). */
module Errors {
  import opened Collections

  /** NotReady is operand.ErrNotReady; Wrapped is an error that wraps another one. */
  datatype Error = NotReady | Other(text: string) | Wrapped(text: string, inner: Error) | Aggregate(errors: seq<Error>)

  /** errors.Is(e, operand.ErrNotReady): an aggregate is searched, a wrapper is unwrapped. */
  predicate IsNotReady(e: Error) {
    match e
    case NotReady => true
    case Other(_) => false
    case Wrapped(_, inner) => IsNotReady(inner)
    case Aggregate(es) => exists i :: 0 <= i < |es| && IsNotReady(es[i])
  }

  /** The errors found by taking aggregates apart. */
  ghost function Leaves(e: Error): multiset<Error> {
    match e
    case Aggregate(es) => LeavesOf(es)
    case _ => multiset{e}
  }

  ghost function LeavesOf(es: seq<Error>): multiset<Error> {
    if es == [] then multiset{} else Leaves(es[0]) + LeavesOf(es[1..])
  }

  /** The aggregate of the errors that are present, if any is. */
  function NewAggregate(errs: seq<Option<Error>>): Option<Error> {
    var present := Present(errs);
    if present == [] then None else Some(Aggregate(present))
  }

  lemma AggregateOne(e: Error)
    ensures NewAggregate([None, Some(e)]) == Some(Aggregate([e]))
  {
    var tail: seq<Option<Error>> := [Some(e)];
    var list: seq<Option<Error>> := [None, Some(e)];
    assert tail[1..] == [] && list[1..] == tail;
    assert Present(list) == Present(tail) == [e];
  }

  ghost function LeavesOfOption(e: Option<Error>): multiset<Error> {
    if e.Some? then Leaves(e.value) else multiset{}
  }

  /** Adding an error to an accumulated one adds its leaves and leaves no error out. */
  lemma AccumulateLeaves(acc: Option<Error>, e: Error)
    ensures NewAggregate([acc, Some(e)]).Some?
    ensures Leaves(NewAggregate([acc, Some(e)]).value) == LeavesOfOption(acc) + Leaves(e)
  {
    var tail: seq<Option<Error>> := [Some(e)];
    assert [acc, Some(e)][1..] == tail;
    assert Present(tail) == [e] + Present(tail[1..]) == [e];
    if acc.Some? {
      assert Present([acc, Some(e)]) == [acc.value, e];
      assert [acc.value, e][1..] == [e];
      assert LeavesOf([acc.value, e]) == Leaves(acc.value) + LeavesOf([e]);
    } else {
      assert Present([acc, Some(e)]) == [e];
    }
    assert [e][1..] == [];
    assert LeavesOf([e]) == Leaves(e) + LeavesOf([]);
  }

  // ---------- what is not ready ----------

  /** What is left of an error when every wrapper and every aggregate in it is taken away. */
  ghost function Roots(e: Error): multiset<Error> {
    match e
    case Wrapped(_, inner) => Roots(inner)
    case Aggregate(es) => RootsOf(es)
    case _ => multiset{e}
  }

  ghost function RootsOf(es: seq<Error>): multiset<Error> {
    if es == [] then multiset{} else Roots(es[0]) + RootsOf(es[1..])
  }

  /** An error is a not-ready error exactly when ErrNotReady itself is at its root. */
  lemma {:induction false} NotReadyRoot(e: Error)
    ensures IsNotReady(e) <==> NotReady in Roots(e)
    decreases e, 1
  {
    match e
    case Wrapped(_, inner) => NotReadyRoot(inner);
    case Aggregate(es) => NotReadyRootOf(es);
    case NotReady =>
    case Other(_) =>
  }

  lemma {:induction false} NotReadyRootOf(es: seq<Error>)
    ensures (exists i :: 0 <= i < |es| && IsNotReady(es[i])) <==> NotReady in RootsOf(es)
    decreases es, 0
  {
    if es != [] {
      NotReadyRoot(es[0]);
      NotReadyRootOf(es[1..]);
      SomeNotReady(es);
    }
  }

  /** The error under the wrappers. */
  function Root(e: Error): Error {
    match e
    case Wrapped(_, inner) => Root(inner)
    case _ => e
  }

  /** Where no aggregate is wrapped, only ErrNotReady itself is under the wrappers of a not-ready error. */
  lemma {:induction false} NotReadyUnwrapped(e: Error)
    requires !Root(e).Aggregate?
    ensures IsNotReady(e) <==> Root(e) == NotReady
  {
    if e.Wrapped? {
      NotReadyUnwrapped(e.inner);
    }
  }

  /** An aggregate under a wrapper is searched too. */
  lemma WrappedAggregate(text: string)
    ensures var e := Wrapped(text, Aggregate([NotReady])); IsNotReady(e) && Root(e) != NotReady
  {
    assert IsNotReady([NotReady][0]);
  }

  /** An error is a not-ready error exactly when one of its leaves is, and that is exactly when
      ErrNotReady is at the root of one of them. */
  lemma NotReadyLeaf(e: Error)
    ensures IsNotReady(e) <==> exists l :: l in Leaves(e) && IsNotReady(l)
    ensures IsNotReady(e) <==> exists l :: l in Leaves(e) && NotReady in Roots(l)
  {
    SomeLeafNotReady(e);
    forall l ensures IsNotReady(l) <==> NotReady in Roots(l) {
      NotReadyRoot(l);
    }
  }

  lemma {:induction false} SomeLeafNotReady(e: Error)
    ensures IsNotReady(e) <==> exists l :: l in Leaves(e) && IsNotReady(l)
    decreases e, 1
  {
    match e
    case Aggregate(es) => NotReadyLeafOf(es);
    case NotReady => assert e in Leaves(e);
    case Other(_) =>
    case Wrapped(_, _) => assert e in Leaves(e);
  }

  lemma {:induction false} NotReadyLeafOf(es: seq<Error>)
    ensures (exists i :: 0 <= i < |es| && IsNotReady(es[i])) <==> exists l :: l in LeavesOf(es) && IsNotReady(l)
    decreases es, 0
  {
    if es != [] {
      SomeLeafNotReady(es[0]);
      NotReadyLeafOf(es[1..]);
      SomeNotReady(es);
      assert LeavesOf(es) == Leaves(es[0]) + LeavesOf(es[1..]);
      SomeNotReadyLeaf(Leaves(es[0]), LeavesOf(es[1..]));
    }
  }

  lemma SomeNotReady(es: seq<Error>)
    requires es != []
    ensures (exists i :: 0 <= i < |es| && IsNotReady(es[i])) <==>
            IsNotReady(es[0]) || exists i :: 0 <= i < |es[1..]| && IsNotReady(es[1..][i])
  {
    if i :| 0 < i < |es| && IsNotReady(es[i]) {
      assert es[1..][i - 1] == es[i];
    }
    if i :| 0 <= i < |es[1..]| && IsNotReady(es[1..][i]) {
      assert es[i + 1] == es[1..][i];
    }
  }

  lemma SomeNotReadyLeaf(a: multiset<Error>, b: multiset<Error>)
    ensures (exists l :: l in a + b && IsNotReady(l)) <==>
            (exists l :: l in a && IsNotReady(l)) || (exists l :: l in b && IsNotReady(l))
  {
  }
}
