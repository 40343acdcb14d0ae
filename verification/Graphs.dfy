/** Dependency graphs of operands: chains of requirements, levels and cycles. */
module Graphs {
  import opened Collections
  import opened Operands

  /** What the DAG library keeps: an operand per vertex, and an enumeration of the
      predecessors and successors of each vertex and of the source vertices.
      The orders in which they are enumerated are arbitrary. */
  datatype Graph = Graph(values: map<Name, Operand>, preds: map<Name, seq<Name>>,
                         succs: map<Name, seq<Name>>, sources: seq<Name>)

  /** Predecessors and successors mirror each other. */
  ghost predicate Linked(g: Graph) {
    && g.preds.Keys == g.values.Keys
    && g.succs.Keys == g.values.Keys
    && (forall v :: v in g.values ==> g.values[v].name == v)
    && (forall v, p {:trigger p in g.preds[v]} :: v in g.values && p in g.preds[v] ==> p in g.values)
    && (forall v, s {:trigger s in g.succs[v]} :: v in g.values && s in g.succs[v] ==> s in g.values)
    && (forall v, w {:trigger w in g.succs[v]} {:trigger v in g.preds[w]} ::
          v in g.values && w in g.values ==> (w in g.succs[v] <==> v in g.preds[w]))
  }

  ghost predicate WellFormed(g: Graph) {
    && Linked(g)
    && NoDup(g.sources)
    && (forall v {:trigger v in g.sources} :: v in g.sources <==> v in g.values && g.preds[v] == [])
  }

  /** Consecutive names are a requirement and an operand that requires it. */
  ghost predicate IsChain(g: Graph, c: seq<Name>)
    requires WellFormed(g)
  {
    && c != []
    && (forall i :: 0 <= i < |c| ==> c[i] in g.values)
    && forall i :: 0 < i < |c| ==> c[i - 1] in g.preds[c[i]]
  }

  /** A chain that starts at a source. */
  ghost predicate IsWalk(g: Graph, c: seq<Name>)
    requires WellFormed(g)
  {
    IsChain(g, c) && c[0] in g.sources
  }

  ghost predicate Acyclic(g: Graph)
    requires WellFormed(g)
  {
    forall c :: IsChain(g, c) && |c| >= 2 ==> c[0] != c[|c| - 1]
  }

  /** A chain of k edges ends in v. */
  ghost predicate ChainTo(g: Graph, v: Name, k: nat)
    requires WellFormed(g)
    decreases k
  {
    v in g.values && (k == 0 || exists p :: p in g.preds[v] && ChainTo(g, p, k - 1))
  }

  /** A walk of k edges from a source ends in v. */
  ghost predicate WalkTo(g: Graph, v: Name, k: nat)
    requires WellFormed(g)
    decreases k
  {
    v in g.values && if k == 0 then v in g.sources else exists p :: p in g.preds[v] && WalkTo(g, p, k - 1)
  }

  // ---------- chains as sequences ----------

  lemma {:induction false} ChainOf(g: Graph, v: Name, k: nat) returns (c: seq<Name>)
    requires WellFormed(g) && ChainTo(g, v, k)
    ensures IsChain(g, c) && |c| == k + 1 && c[k] == v
    decreases k
  {
    if k == 0 {
      c := [v];
    } else {
      var p :| p in g.preds[v] && ChainTo(g, p, k - 1);
      c := ChainOf(g, p, k - 1);
      c := c + [v];
    }
  }

  lemma {:induction false} WalkOf(g: Graph, v: Name, k: nat) returns (c: seq<Name>)
    requires WellFormed(g) && WalkTo(g, v, k)
    ensures IsWalk(g, c) && |c| == k + 1 && c[k] == v
    decreases k
  {
    if k == 0 {
      c := [v];
    } else {
      var p :| p in g.preds[v] && WalkTo(g, p, k - 1);
      c := WalkOf(g, p, k - 1);
      c := c + [v];
    }
  }

  lemma {:induction false} ChainEnds(g: Graph, c: seq<Name>, k: nat)
    requires WellFormed(g) && IsChain(g, c) && k < |c|
    ensures ChainTo(g, c[k], k)
    ensures IsWalk(g, c) ==> WalkTo(g, c[k], k)
    decreases k
  {
    if k > 0 {
      ChainEnds(g, c, k - 1);
    }
  }

  // ---------- cycles make chains endless ----------

  /** From position i on, a chain that repeats its i-th vertex can be prolonged backwards forever. */
  lemma {:induction false} Pump(g: Graph, c: seq<Name>, i: nat, j: nat, t: nat, m: nat)
    requires WellFormed(g) && IsChain(g, c) && i < j < |c| && c[i] == c[j]
    requires i <= t < |c|
    ensures ChainTo(g, c[t], m)
    decreases m
  {
    if m > 0 {
      var u := if t == i then j - 1 else t - 1;
      Pump(g, c, i, j, u, m - 1);
      assert c[u] in g.preds[c[t]];
    }
  }

  /** A walk that repeats a vertex can go round the cycle forever. */
  lemma {:induction false} PumpWalk(g: Graph, c: seq<Name>, i: nat, j: nat, m: nat) returns (t: nat)
    requires WellFormed(g) && IsWalk(g, c) && i < j < |c| && c[i] == c[j]
    ensures t <= j && WalkTo(g, c[t], m)
    decreases m
  {
    if m == 0 {
      t := 0;
    } else {
      t := PumpWalk(g, c, i, j, m - 1);
      t := if t == j then i + 1 else t + 1;
      assert c[t - 1] in g.preds[c[t]];
    }
  }

  /** As many edges as vertices: the chain repeats a vertex, so chains into v are endless. */
  lemma Endless(g: Graph, v: Name, m: nat)
    requires WellFormed(g) && ChainTo(g, v, |g.values|)
    ensures ChainTo(g, v, m)
  {
    var n := |g.values|;
    var c := ChainOf(g, v, n);
    assert |g.values.Keys| == n;
    var i, j := Pigeonhole(c, g.values.Keys);
    Pump(g, c, i, j, n, m);
  }

  lemma {:induction false} ChainShorter(g: Graph, v: Name, k: nat, m: nat)
    requires WellFormed(g) && ChainTo(g, v, k) && m <= k
    ensures ChainTo(g, v, m)
    decreases k
  {
    if 0 < m {
      var p :| p in g.preds[v] && ChainTo(g, p, k - 1);
      ChainShorter(g, p, k - 1, m - 1);
    }
  }

  // ---------- grounded vertices and their level ----------

  /** No cycle lies on or before v: the chains into v are bounded. */
  ghost predicate Grounded(g: Graph, v: Name)
    requires WellFormed(g)
  {
    v in g.values && !ChainTo(g, v, |g.values|)
  }

  /** The number of edges of the longest chain into v. */
  ghost function Level(g: Graph, v: Name): (k: nat)
    requires WellFormed(g) && Grounded(g, v)
    ensures ChainTo(g, v, k) && !ChainTo(g, v, k + 1)
  {
    LevelUpTo(g, v, |g.values| - 1)
  }

  ghost function LevelUpTo(g: Graph, v: Name, n: nat): (k: nat)
    requires WellFormed(g) && v in g.values && !ChainTo(g, v, n + 1)
    ensures ChainTo(g, v, k) && !ChainTo(g, v, k + 1)
    decreases n
  {
    if n == 0 || ChainTo(g, v, n) then n else LevelUpTo(g, v, n - 1)
  }

  lemma LevelBounds(g: Graph, v: Name, k: nat)
    requires WellFormed(g) && Grounded(g, v)
    ensures ChainTo(g, v, k) <==> k <= Level(g, v)
  {
    if k <= Level(g, v) {
      ChainShorter(g, v, Level(g, v), k);
    } else if ChainTo(g, v, k) {
      ChainShorter(g, v, k, Level(g, v) + 1);
    }
  }

  lemma GroundedPred(g: Graph, v: Name, p: Name)
    requires WellFormed(g) && Grounded(g, v) && p in g.preds[v]
    ensures Grounded(g, p) && Level(g, p) < Level(g, v)
  {
    if ChainTo(g, p, |g.values|) {
      Endless(g, p, |g.values| - 1);
    }
    LevelBounds(g, v, Level(g, p) + 1);
  }

  lemma GroundedByPreds(g: Graph, v: Name)
    requires WellFormed(g) && v in g.values && forall p :: p in g.preds[v] ==> Grounded(g, p)
    ensures Grounded(g, v)
  {
    if ChainTo(g, v, |g.values|) {
      Endless(g, v, |g.values| + 1);
    }
  }

  /** Some requirement of v sits exactly one level below it. */
  lemma LevelPred(g: Graph, v: Name) returns (p: Name)
    requires WellFormed(g) && Grounded(g, v) && Level(g, v) > 0
    ensures p in g.preds[v] && Grounded(g, p) && Level(g, p) + 1 == Level(g, v)
  {
    p :| p in g.preds[v] && ChainTo(g, p, Level(g, v) - 1);
    GroundedPred(g, v, p);
    LevelBounds(g, p, Level(g, v) - 1);
  }

  /** The longest chain into v starts at a source, and no walk into v is longer. */
  lemma {:induction false} LevelWalk(g: Graph, v: Name)
    requires WellFormed(g) && Grounded(g, v)
    ensures WalkTo(g, v, Level(g, v))
    decreases Level(g, v)
  {
    if Level(g, v) == 0 {
      if g.preds[v] != [] {
        assert g.preds[v][0] in g.preds[v] && ChainTo(g, g.preds[v][0], 0);
      }
    } else {
      var p := LevelPred(g, v);
      LevelWalk(g, p);
    }
  }

  lemma {:induction false} WalkIsChain(g: Graph, v: Name, k: nat)
    requires WellFormed(g) && WalkTo(g, v, k)
    ensures ChainTo(g, v, k)
    ensures Grounded(g, v) ==> k <= Level(g, v)
    decreases k
  {
    if k > 0 {
      var p :| p in g.preds[v] && WalkTo(g, p, k - 1);
      WalkIsChain(g, p, k - 1);
    }
    if Grounded(g, v) {
      LevelBounds(g, v, k);
    }
  }

  lemma UngroundedCycle(g: Graph, v: Name) returns (c: seq<Name>)
    requires WellFormed(g) && v in g.values && !Grounded(g, v)
    ensures IsChain(g, c) && |c| >= 2 && c[0] == c[|c| - 1]
  {
    var d := ChainOf(g, v, |g.values|);
    assert |g.values.Keys| == |g.values|;
    var i, j := Pigeonhole(d, g.values.Keys);
    c := d[i..j + 1];
  }

  lemma CycleUngrounded(g: Graph, c: seq<Name>)
    requires WellFormed(g) && IsChain(g, c) && |c| >= 2 && c[0] == c[|c| - 1]
    ensures c[0] in g.values && !Grounded(g, c[0])
  {
    Pump(g, c, 0, |c| - 1, 0, |g.values|);
  }

  /** Every vertex is grounded exactly when the requirements form no cycle. */
  lemma AcyclicIffGrounded(g: Graph)
    requires WellFormed(g)
    ensures Acyclic(g) <==> forall v :: v in g.values ==> Grounded(g, v)
  {
    if !Acyclic(g) {
      var c :| IsChain(g, c) && |c| >= 2 && c[0] == c[|c| - 1];
      CycleUngrounded(g, c);
    } else if v :| v in g.values && !Grounded(g, v) {
      var c := UngroundedCycle(g, v);
    }
  }

  // ---------- walks that end ----------

  /** No walk of n edges exists. */
  ghost predicate WalksEndBefore(g: Graph, n: nat)
    requires WellFormed(g)
  {
    forall v :: !WalkTo(g, v, n)
  }

  /** Walks are bounded exactly when no cycle is reachable from a source. */
  lemma WalksBounded(g: Graph)
    requires WellFormed(g)
    ensures (exists n: nat :: WalksEndBefore(g, n)) <==>
            (forall c :: IsWalk(g, c) ==> NoDup(c))
  {
    if c :| IsWalk(g, c) && !NoDup(c) {
      var i, j :| 0 <= i < j < |c| && c[i] == c[j];
      forall n: nat ensures !WalksEndBefore(g, n) {
        var t := PumpWalk(g, c, i, j, n);
      }
    } else {
      var n := |g.values|;
      if v :| WalkTo(g, v, n) {
        var c := WalkOf(g, v, n);
        assert |g.values.Keys| == n;
        var i, j := Pigeonhole(c, g.values.Keys);
      }
      assert WalksEndBefore(g, n);
    }
  }

  lemma AcyclicWalksEnd(g: Graph)
    requires WellFormed(g) && Acyclic(g)
    ensures WalksEndBefore(g, |g.values|)
  {
    AcyclicIffGrounded(g);
    forall v ensures !WalkTo(g, v, |g.values|) {
      if WalkTo(g, v, |g.values|) {
        WalkIsChain(g, v, |g.values|);
      }
    }
  }
}
