/** Building the dependency graph from the operands (operator/v1/dag/dag.go, NewOperandDAG). */
module OperandDagBuild {
  import opened Collections
  import opened Operands
  import opened Graphs

  /** The names are distinct, every required name is the name of an operand, and, where the DAG
      library refuses to add an edge twice, no operand repeats a requirement. */
  ghost predicate Buildable(ops: seq<Operand>, refusesRepeats: bool) {
    && DistinctNames(ops, |ops|)
    && (forall i, p :: 0 <= i < |ops| && p in ops[i].needs ==> Named(ops, |ops|, p))
    && (refusesRepeats ==> forall i :: 0 <= i < |ops| ==> NoDup(ops[i].needs))
  }

  /** The vertices are the operands and the edges are exactly what they require. */
  ghost predicate Represents(ops: seq<Operand>, g: Graph)
    requires WellFormed(g)
  {
    && (forall v :: v in g.values ==> g.values[v] in ops)
    && (forall op :: op in ops ==> op.name in g.values && g.values[op.name] == op)
    && (forall v, p :: v in g.values ==> (p in g.preds[v] <==> p in g.values[v].needs))
  }

  function AddEdge(g: Graph, tail: Name, head: Name): (r: Graph)
    requires Linked(g) && tail in g.values && head in g.values
    ensures Linked(r) && r.values == g.values
    ensures forall p :: p in r.preds[head] <==> p in g.preds[head] || p == tail
    ensures forall v :: v in g.values && v != head ==> r.preds[v] == g.preds[v]
  {
    g.(preds := g.preds[head := g.preds[head] + [tail]], succs := g.succs[tail := g.succs[tail] + [head]])
  }

  function AddVertex(g: Graph, op: Operand): (r: Graph)
    requires Linked(g) && op.name !in g.values
    ensures Linked(r) && r.values == g.values[op.name := op] && r.preds == g.preds[op.name := []]
  {
    g.(values := g.values[op.name := op], preds := g.preds[op.name := []], succs := g.succs[op.name := []])
  }

  predicate Named(ops: seq<Operand>, n: nat, v: Name)
    requires n <= |ops|
  {
    exists k :: 0 <= k < n && ops[k].name == v
  }

  ghost predicate DistinctNames(ops: seq<Operand>, n: nat)
    requires n <= |ops|
  {
    forall i, j :: 0 <= i < j < n ==> ops[i].name != ops[j].name
  }

  /** The first n operands are vertices, and there are no edges. */
  ghost predicate Vertices(ops: seq<Operand>, n: nat, g: Graph)
    requires n <= |ops|
  {
    Linked(g) && Bare(ops, n, g.values, g.preds)
  }

  ghost predicate Bare(ops: seq<Operand>, n: nat, values: map<Name, Operand>, preds: map<Name, seq<Name>>)
    requires n <= |ops|
  {
    && DistinctNames(ops, n)
    && (forall v :: v in values ==> Named(ops, n, v))
    && (forall k :: 0 <= k < n ==> ops[k].name in values && values[ops[k].name] == ops[k])
    && (forall v :: v in values ==> v in preds && preds[v] == [])
  }

  lemma OneMoreBare(ops: seq<Operand>, n: nat, values: map<Name, Operand>, preds: map<Name, seq<Name>>)
    requires n < |ops| && Bare(ops, n, values, preds) && ops[n].name !in values
    ensures Bare(ops, n + 1, values[ops[n].name := ops[n]], preds[ops[n].name := []])
  {
  }

  lemma OneMoreVertex(ops: seq<Operand>, n: nat, g: Graph)
    requires n < |ops| && Vertices(ops, n, g) && ops[n].name !in g.values
    ensures Vertices(ops, n + 1, AddVertex(g, ops[n]))
  {
    OneMoreBare(ops, n, g.values, g.preds);
  }

  method AddVertices(ops: seq<Operand>) returns (r: Result<Graph>)
    ensures r.Ok? <==> DistinctNames(ops, |ops|)
    ensures r.Ok? ==> Vertices(ops, |ops|, r.value)
  {
    var g := Graph(map[], map[], map[], []);
    for i := 0 to |ops|
      invariant Vertices(ops, i, g)
    {
      if ops[i].name in g.values {
        return Err("duplicate vertex");
      }
      OneMoreVertex(ops, i, g);
      g := AddVertex(g, ops[i]);
    }
    return Ok(g);
  }

  /** The first j requirements of op are connected to it, and nothing else changed. */
  ghost predicate Connecting(g0: Graph, op: Operand, j: nat, g: Graph)
    requires j <= |op.needs| && Linked(g0) && op.name in g0.values
  {
    && Linked(g) && g.values == g0.values
    && (forall k :: 0 <= k < j ==> op.needs[k] in g.preds[op.name])
    && (forall p :: p in g.preds[op.name] ==> exists k :: 0 <= k < j && op.needs[k] == p)
    && (forall v :: v in g0.values && v != op.name ==> g.preds[v] == g0.preds[v])
  }

  lemma OneMoreEdge(g0: Graph, op: Operand, j: nat, g: Graph)
    requires j < |op.needs| && Linked(g0) && op.name in g0.values && Connecting(g0, op, j, g)
    requires op.needs[j] in g.values
    ensures Connecting(g0, op, j + 1, AddEdge(g, op.needs[j], op.name))
    ensures op.needs[j] in g.preds[op.name] ==> Connecting(g0, op, j + 1, g)
  {
  }

  ghost predicate DistinctUpTo(needs: seq<Name>, j: nat)
    requires j <= |needs|
  {
    forall k, l :: 0 <= k < l < j ==> needs[k] != needs[l]
  }

  lemma RepeatedEdge(g0: Graph, op: Operand, j: nat, g: Graph)
    requires j < |op.needs| && Linked(g0) && op.name in g0.values && Connecting(g0, op, j, g)
    ensures op.needs[j] in g.preds[op.name] ==> !NoDup(op.needs)
    ensures op.needs[j] !in g.preds[op.name] && DistinctUpTo(op.needs, j) ==> DistinctUpTo(op.needs, j + 1)
  {
  }

  /** Connect one operand to what it requires. */
  method ConnectOperand(g0: Graph, op: Operand, refusesRepeats: bool) returns (r: Result<Graph>)
    requires Linked(g0) && op.name in g0.values && g0.preds[op.name] == []
    ensures r.Ok? <==>
            && (forall p :: p in op.needs ==> p in g0.values)
            && (refusesRepeats ==> NoDup(op.needs))
    ensures r.Ok? ==> Connecting(g0, op, |op.needs|, r.value)
  {
    var g := g0;
    for j := 0 to |op.needs|
      invariant Connecting(g0, op, j, g)
      invariant refusesRepeats ==> DistinctUpTo(op.needs, j)
    {
      if op.needs[j] !in g.values {
        return Err("unknown vertex");
      }
      OneMoreEdge(g0, op, j, g);
      RepeatedEdge(g0, op, j, g);
      if op.needs[j] !in g.preds[op.name] {
        g := AddEdge(g, op.needs[j], op.name);
      } else if refusesRepeats {
        return Err("edge already exists");
      }
    }
    return Ok(g);
  }

  method SourceVertices(ops: seq<Operand>, g: Graph) returns (sources: seq<Name>)
    requires g.preds.Keys == g.values.Keys && DistinctNames(ops, |ops|)
    requires forall v :: v in g.values <==> Named(ops, |ops|, v)
    ensures NoDup(sources) && forall v :: v in sources <==> v in g.values && g.preds[v] == []
  {
    sources := [];
    for i := 0 to |ops|
      invariant NoDup(sources)
      invariant forall v :: v in sources ==> Named(ops, i, v) && v in g.values && g.preds[v] == []
      invariant forall k :: 0 <= k < i ==>
                ops[k].name in g.values && (g.preds[ops[k].name] == [] ==> ops[k].name in sources)
    {
      assert Named(ops, |ops|, ops[i].name);
      if g.preds[ops[i].name] == [] {
        sources := sources + [ops[i].name];
      }
    }
  }

  /** Operand op is connected to exactly what it requires. */
  ghost predicate Joined(g: Graph, op: Operand, refusesRepeats: bool) {
    && op.name in g.values && op.name in g.preds
    && (refusesRepeats ==> NoDup(op.needs))
    && forall p :: p in g.preds[op.name] <==> p in op.needs
  }

  /** The first n operands are joined, the others not connected yet. */
  ghost predicate Progress(ops: seq<Operand>, n: nat, g0: Graph, g: Graph, refusesRepeats: bool)
    requires n <= |ops|
  {
    && Linked(g) && g.values == g0.values
    && (forall k :: 0 <= k < n ==> Joined(g, ops[k], refusesRepeats))
    && (forall k :: n <= k < |ops| ==> ops[k].name in g.values && g.preds[ops[k].name] == [])
  }

  lemma OneMoreOperand(ops: seq<Operand>, n: nat, g0: Graph, g: Graph, h: Graph, refusesRepeats: bool)
    requires n < |ops| && DistinctNames(ops, |ops|) && Progress(ops, n, g0, g, refusesRepeats)
    requires Connecting(g, ops[n], |ops[n].needs|, h)
    requires refusesRepeats ==> NoDup(ops[n].needs)
    ensures Progress(ops, n + 1, g0, h, refusesRepeats)
  {
    forall k | 0 <= k < n ensures Joined(h, ops[k], refusesRepeats) {
      assert Joined(g, ops[k], refusesRepeats);
    }
    assert Joined(h, ops[n], refusesRepeats);
  }

  method NewOperandDAG(ops: seq<Operand>, refusesRepeats: bool) returns (r: Result<Graph>)
    ensures r.Ok? <==> Buildable(ops, refusesRepeats)
    ensures r.Ok? ==> WellFormed(r.value) && Represents(ops, r.value)
  {
    r := AddVertices(ops);
    if r.Err? {
      return;
    }
    var g := r.value;
    ghost var g0 := g;
    for i := 0 to |ops|
      invariant Progress(ops, i, g0, g, refusesRepeats)
    {
      r := ConnectOperand(g, ops[i], refusesRepeats);
      if r.Err? {
        NotBuildable(ops, i, g0, refusesRepeats);
        return;
      }
      OneMoreOperand(ops, i, g0, g, r.value, refusesRepeats);
      g := r.value;
    }
    KnownNames(ops, g0);
    var sources := SourceVertices(ops, g);
    r := Ok(g.(sources := sources));
    JoinedRepresents(ops, g0, g, r.value, refusesRepeats);
  }

  lemma KnownNames(ops: seq<Operand>, g: Graph)
    requires Vertices(ops, |ops|, g)
    ensures forall v :: v in g.values <==> Named(ops, |ops|, v)
  {
  }

  lemma NotBuildable(ops: seq<Operand>, i: nat, g0: Graph, refusesRepeats: bool)
    requires i < |ops| && Vertices(ops, |ops|, g0)
    requires (exists p :: p in ops[i].needs && p !in g0.values) || (refusesRepeats && !NoDup(ops[i].needs))
    ensures !Buildable(ops, refusesRepeats)
  {
    KnownNames(ops, g0);
  }

  lemma JoinedRepresents(ops: seq<Operand>, g0: Graph, g: Graph, h: Graph, refusesRepeats: bool)
    requires Vertices(ops, |ops|, g0) && Progress(ops, |ops|, g0, g, refusesRepeats)
    requires WellFormed(h) && h == g.(sources := h.sources)
    ensures Represents(ops, h) && Buildable(ops, refusesRepeats)
  {
    KnownNames(ops, g0);
    forall v, p | v in h.values
      ensures h.values[v] in ops && (p in h.preds[v] <==> p in h.values[v].needs)
    {
      var k :| 0 <= k < |ops| && ops[k].name == v;
      assert Joined(g, ops[k], refusesRepeats);
    }
    forall i, p | 0 <= i < |ops| && p in ops[i].needs ensures Named(ops, |ops|, p) {
      assert Joined(g, ops[i], refusesRepeats);
    }
    forall i | 0 <= i < |ops| ensures refusesRepeats ==> NoDup(ops[i].needs) {
      assert Joined(g, ops[i], refusesRepeats);
    }
  }
}
