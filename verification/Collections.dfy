/** Facts about sequences, sets and multisets shared by the models. */
module Collections {

  datatype Option<+T> = None | Some(value: T)

  datatype Result<+T> = Ok(value: T) | Err(error: string)

  predicate NoDup<T(==)>(s: seq<T>) {
    forall i, j :: 0 <= i < j < |s| ==> s[i] != s[j]
  }

  /** x stands at an earlier position than y. */
  predicate Precedes<T(==)>(s: seq<T>, x: T, y: T) {
    exists i, j :: 0 <= i < j < |s| && s[i] == x && s[j] == y
  }

  lemma SubsetCardinality<T>(a: set<T>, b: set<T>)
    requires a <= b
    ensures |a| <= |b|
  {
    assert b == a + (b - a);
  }

  lemma {:induction false} NoDupCardinality<T>(s: seq<T>)
    requires NoDup(s)
    ensures |set x | x in s| == |s|
  {
    if s != [] {
      var rest := s[..|s| - 1];
      NoDupCardinality(rest);
      assert (set x | x in s) == (set x | x in rest) + {s[|s| - 1]};
    }
  }

  /** More positions than values: some value is repeated. */
  lemma Pigeonhole<T>(s: seq<T>, values: set<T>) returns (i: nat, j: nat)
    requires forall x :: x in s ==> x in values
    requires |s| > |values|
    ensures i < j < |s| && s[i] == s[j]
  {
    if NoDup(s) {
      NoDupCardinality(s);
      SubsetCardinality((set x | x in s), values);
      assert false;
    }
    i, j :| 0 <= i < j < |s| && s[i] == s[j];
  }

  // ---------- lists without repetition ----------

  /** s with the missing members of xs appended in order. */
  function AddMissing<T(==)>(s: seq<T>, xs: seq<T>): seq<T> {
    if xs == [] then s else
      var r := AddMissing(s, xs[..|xs| - 1]);
      if xs[|xs| - 1] in r then r else r + [xs[|xs| - 1]]
  }

  lemma {:induction false} AddMissingSpec<T>(s: seq<T>, xs: seq<T>)
    ensures forall v :: v in AddMissing(s, xs) <==> v in s || v in xs
    ensures NoDup(s) ==> NoDup(AddMissing(s, xs))
    ensures s <= AddMissing(s, xs)
  {
    if xs != [] {
      AddMissingSpec(s, xs[..|xs| - 1]);
      assert xs == xs[..|xs| - 1] + [xs[|xs| - 1]];
    }
  }

  // ---------- sums ----------

  /** The sum of the contributions of the elements. */
  ghost function Total<X, T>(s: seq<X>, f: X -> multiset<T>): multiset<T> {
    if s == [] then multiset{} else f(s[0]) + Total(s[1..], f)
  }

  lemma {:induction false} TotalAppend<X, T>(s: seq<X>, x: X, f: X -> multiset<T>)
    ensures Total(s + [x], f) == Total(s, f) + f(x)
  {
    if s == [] {
      assert s + [x] == [x];
    } else {
      assert (s + [x])[1..] == s[1..] + [x];
      TotalAppend(s[1..], x, f);
    }
  }

  /** Replacing an element replaces its contribution. */
  lemma {:induction false} TotalUpdate<X, T>(s: seq<X>, i: nat, x: X, f: X -> multiset<T>)
    requires i < |s|
    ensures Total(s[i := x], f) + f(s[i]) == Total(s, f) + f(x)
  {
    if i > 0 {
      assert s[i := x][1..] == s[1..][i - 1 := x];
      TotalUpdate(s[1..], i - 1, x, f);
      var rest, rest' := Total(s[1..], f), Total(s[1..][i - 1 := x], f);
      calc {
        Total(s[i := x], f) + f(s[i]);
        f(s[0]) + rest' + f(s[i]);
        f(s[0]) + (rest' + f(s[i]));
        f(s[0]) + (rest + f(x));
        f(s[0]) + rest + f(x);
      }
    } else {
      assert s[i := x][1..] == s[1..];
    }
  }

  lemma Cancel<T>(a: multiset<T>, b: multiset<T>, c: multiset<T>)
    requires a + c == b + c
    ensures a == b
  {
    assert a == (a + c) - c;
    assert b == (b + c) - c;
  }

  ghost function Sum<X>(s: seq<X>, f: X -> nat): nat {
    if s == [] then 0 else f(s[0]) + Sum(s[1..], f)
  }

  lemma {:induction false} SumAppend<X>(s: seq<X>, x: X, f: X -> nat)
    ensures Sum(s + [x], f) == Sum(s, f) + f(x)
  {
    if s == [] {
      assert s + [x] == [x];
    } else {
      assert (s + [x])[1..] == s[1..] + [x];
      SumAppend(s[1..], x, f);
    }
  }

  lemma {:induction false} SumUpdate<X>(s: seq<X>, i: nat, x: X, f: X -> nat)
    requires i < |s|
    ensures Sum(s[i := x], f) + f(s[i]) == Sum(s, f) + f(x)
  {
    if i > 0 {
      assert s[i := x][1..] == s[1..][i - 1 := x];
      SumUpdate(s[1..], i - 1, x, f);
    } else {
      assert s[i := x][1..] == s[1..];
    }
  }

  /** A sum is zero exactly when nothing contributes. */
  lemma {:induction false} SumZero<X>(s: seq<X>, f: X -> nat)
    ensures Sum(s, f) == 0 <==> forall i :: 0 <= i < |s| ==> f(s[i]) == 0
  {
    if s != [] {
      SumZero(s[1..], f);
      assert forall i :: 0 < i < |s| ==> s[i] == s[1..][i - 1];
    }
  }

  /** With contributions of at most one, an element that contributes nothing keeps the sum below the length. */
  lemma {:induction false} SumBelow<X>(s: seq<X>, k: nat, f: X -> nat)
    requires k <= |s| && forall i :: 0 <= i < |s| ==> f(s[i]) <= 1
    requires k < |s| ==> f(s[k]) == 0
    ensures Sum(s, f) + (if k < |s| then 1 else 0) <= |s|
  {
    if s != [] {
      SumBelow(s[1..], if k == 0 then |s| - 1 else k - 1, f);
    }
  }

  /** Nothing contributes to an empty sum. */
  lemma {:induction false} TotalEmpty<X, T>(s: seq<X>, f: X -> multiset<T>)
    requires forall i :: 0 <= i < |s| ==> f(s[i]) == multiset{}
    ensures Total(s, f) == multiset{}
  {
    if s != [] {
      TotalEmpty(s[1..], f);
    }
  }

  // ---------- members and options ----------

  lemma SameMembers<T>(p: seq<T>, q: seq<T>)
    requires multiset(p) == multiset(q)
    ensures forall x :: x in p <==> x in q
  {
    forall x ensures x in p <==> x in q {
      assert x in p <==> x in multiset(p);
      assert x in q <==> x in multiset(q);
    }
  }

  /** The values that are there. */
  function Present<T>(s: seq<Option<T>>): seq<T> {
    if s == [] then [] else (if s[0].Some? then [s[0].value] else []) + Present(s[1..])
  }

  lemma {:induction false} PresentAppend<T>(a: seq<Option<T>>, b: seq<Option<T>>)
    ensures Present(a + b) == Present(a) + Present(b)
    decreases a
  {
    if a == [] {
      assert a + b == b;
    } else {
      PresentAppend(a[1..], b);
      PresentCons(a);
      PresentCons(a + b);
      assert (a + b)[1..] == a[1..] + b;
      Associates(Present(a[..1]), Present(a[1..]), Present(b));
      assert (a + b)[..1] == a[..1];
    }
  }

  lemma PresentCons<T>(s: seq<Option<T>>)
    requires s != []
    ensures Present(s) == Present(s[..1]) + Present(s[1..])
  {
    assert s[..1][1..] == [];
    assert Present(s[..1]) == if s[0].Some? then [s[0].value] else [];
  }

  lemma Associates<T>(a: seq<T>, b: seq<T>, c: seq<T>)
    ensures a + (b + c) == a + b + c
  {
  }
}
