/** Strings joined with a separator. */
module Strings {

  predicate Free(s: string, c: char) {
    c !in s
  }

  lemma FirstSeparator(c: char, a: string, x: string, i: nat)
    requires Free(a, c) && i <= |a|
    ensures (a + [c] + x)[i] == c <==> i == |a|
  {
    if i < |a| {
      assert (a + [c] + x)[i] == a[i];
      assert a[i] in a;
    }
  }

  /** Without the separator in the first part, the two parts can be told apart. */
  lemma JoinInjective(c: char, a: string, x: string, b: string, y: string)
    requires Free(a, c) && Free(b, c) && a + [c] + x == b + [c] + y
    ensures a == b && x == y
  {
    var l, r := a + [c] + x, b + [c] + y;
    var m := if |a| < |b| then |a| else |b|;
    FirstSeparator(c, a, x, m);
    FirstSeparator(c, b, y, m);
    assert a == l[..m] && b == r[..m];
    assert x == l[m + 1..] && y == r[m + 1..];
  }
}
