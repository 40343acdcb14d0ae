/** Field indexes and the cache reader on top of them (cache/informer_cache.go, cache/informer/cache_reader.go). */
module FieldIndex {
  import opened Collections
  import opened Strings

  /** A cached object: its namespace, name and labels, and everything else. */
  datatype Item = Item(ns: string, name: string, labels: map<string, string>, body: int)

  const ALL_NAMESPACES := "__all_namespaces"

  /** The prefix that stands for a namespace in index keys. */
  function Scope(ns: string): string {
    if ns != "" then ns else ALL_NAMESPACES
  }

  function KeyToNamespacedKey(ns: string, baseKey: string): string {
    if ns != "" then ns + "/" + baseKey else ALL_NAMESPACES + "/" + baseKey
  }

  /** The values under one key function, followed, if asked for, by those under another. */
  function Keys<T>(own: T -> T, all: T -> T, double: bool, vals: seq<T>): (keys: seq<T>)
    ensures |keys| == if double then 2 * |vals| else |vals|
    ensures forall k :: 0 <= k < |keys| ==> keys[k] == if k < |vals| then own(vals[k]) else all(vals[k - |vals|])
  {
    var first := seq(|vals|, i requires 0 <= i < |vals| => own(vals[i]));
    if double then first + seq(|vals|, i requires 0 <= i < |vals| => all(vals[i])) else first
  }

  /** The index keys of an object in namespace ns with the given field values: the keys for the
      namespace and, for a namespaced object, those for listing across namespaces. */
  function IndexKeys(ns: string, vals: seq<string>): seq<string> {
    Keys(v => KeyToNamespacedKey(ns, v), v => KeyToNamespacedKey("", v), ns != "", vals)
  }

  /** The loop of the index function. Unless the keys are doubled the extracted slice itself is overwritten. */
  method FillKeys<T(0)>(own: T -> T, all: T -> T, double: bool, rawVals: array<T>) returns (vals: array<T>)
    modifies rawVals
    ensures vals[..] == Keys(own, all, double, old(rawVals[..]))
    ensures !double ==> vals == rawVals
    ensures double ==> fresh(vals) && rawVals[..] == old(rawVals[..])
  {
    ghost var raw := rawVals[..];
    var n := rawVals.Length;
    if double {
      vals := new T[2 * n];
    } else {
      vals := rawVals;
    }
    ghost var len, keys := vals.Length, Keys(own, all, double, raw);
    for i := 0 to n
      invariant vals.Length == len && |raw| == n
      invariant !double ==> vals == rawVals
      invariant double ==> fresh(vals) && len == 2 * n
      invariant forall k :: (if double then 0 else i) <= k < n ==> rawVals[k] == raw[k]
      invariant forall k :: 0 <= k < i ==> vals[k] == keys[k]
      invariant double ==> forall k :: n <= k < n + i ==> vals[k] == keys[k]
    {
      var rawVal := rawVals[i];
      assert keys[i] == own(rawVal);
      vals[i] := own(rawVal);
      if double {
        assert keys[i + n] == all(rawVal);
        vals[i + n] := all(rawVal);
      }
    }
    assert vals[..] == keys;
  }

  method IndexFunc(ns: string, rawVals: array<string>) returns (vals: array<string>)
    modifies rawVals
    ensures vals[..] == IndexKeys(ns, old(rawVals[..]))
    ensures ns == "" ==> vals == rawVals
    ensures ns != "" ==> fresh(vals) && rawVals[..] == old(rawVals[..])
  {
    vals := FillKeys(v => KeyToNamespacedKey(ns, v), v => KeyToNamespacedKey("", v), ns != "", rawVals);
  }

  // ---------- keys tell namespaces and values apart ----------

  predicate NoSlash(s: string) {
    Free(s, '/')
  }

  lemma KeysEqual(a: string, x: string, b: string, y: string)
    requires NoSlash(a) && NoSlash(b)
    ensures KeyToNamespacedKey(a, x) == KeyToNamespacedKey(b, y) <==>
            x == y && Scope(a) == Scope(b)
  {
    assert NoSlash(ALL_NAMESPACES);
    if Scope(a) + "/" + x == Scope(b) + "/" + y {
      JoinInjective('/', Scope(a), x, Scope(b), y);
    }
  }

  /** An object is under a query key exactly when it has the value and the query is across namespaces
      or for its own. The reserved namespace stands for a query across namespaces. */
  lemma IndexMatches(q: string, v: string, ns: string, vals: seq<string>)
    requires NoSlash(q) && NoSlash(ns)
    ensures KeyToNamespacedKey(q, v) in IndexKeys(ns, vals) <==>
            v in vals && (q == "" || q == ALL_NAMESPACES || q == ns)
  {
    var own, all := v => KeyToNamespacedKey(ns, v), v => KeyToNamespacedKey("", v);
    var key := KeyToNamespacedKey(q, v);
    forall x ensures own(x) == key <==> x == v && Scope(q) == Scope(ns) {
      KeysEqual(q, v, ns, x);
    }
    forall x ensures all(x) == key <==> x == v && Scope(q) == ALL_NAMESPACES {
      KeysEqual(q, v, "", x);
    }
    InKeys(own, all, ns != "", vals, key, v, Scope(q) == Scope(ns), Scope(q) == ALL_NAMESPACES);
  }

  lemma InKeys(own: string -> string, all: string -> string, double: bool, vals: seq<string>, key: string, v: string,
               ownHit: bool, allHit: bool)
    requires forall x :: own(x) == key <==> x == v && ownHit
    requires forall x :: all(x) == key <==> x == v && allHit
    ensures key in Keys(own, all, double, vals) <==> v in vals && (ownHit || (double && allHit))
  {
    var keys := Keys(own, all, double, vals);
    if v in vals {
      var i :| 0 <= i < |vals| && vals[i] == v;
      assert keys[i] == own(v);
      assert double ==> keys[i + |vals|] == all(v);
    }
    if key in keys {
      var j :| 0 <= j < |keys| && keys[j] == key;
      assert vals[if j < |vals| then j else j - |vals|] == v;
    }
  }

  /** With a slash in a namespace two different pairs share a key. */
  lemma SlashWitness()
    ensures KeyToNamespacedKey("a", "b/c") == KeyToNamespacedKey("a/b", "c")
  {
    assert "a" + "/" + "b/c" == "a/b" + "/" + "c";
  }

  // ---------- the reader ----------

  datatype Operator = Equals | DoubleEquals | NotEquals | Other(code: int)

  datatype Requirement = Requirement(field: string, op: Operator, value: string)

  /** What a requirement asks of the values of its field. */
  predicate Meets(req: Requirement, vals: seq<string>) {
    match req.op
    case Equals => req.value in vals
    case DoubleEquals => req.value in vals
    case NotEquals => req.value !in vals
    case Other(_) => false
  }

  predicate RequiresExactMatch(reqs: seq<Requirement>) {
    |reqs| == 1 && (reqs[0].op == Equals || reqs[0].op == DoubleEquals)
  }

  type Extractor = Item -> seq<string>

  /** The objects of a kind by store key, and an extractor per indexed field. */
  datatype Indexer = Indexer(store: map<string, Item>, fields: map<string, Extractor>)

  function StoreKey(ns: string, name: string): string {
    if ns == "" then name else ns + "/" + name
  }

  ghost predicate ValidStore(x: Indexer) {
    forall k :: k in x.store ==>
      k == StoreKey(x.store[k].ns, x.store[k].name) && NoSlash(x.store[k].ns) && NoSlash(x.store[k].name)
  }

  /** The objects whose index keys hold the key, in whatever order the indexer keeps them. */
  method ByIndex(x: Indexer, field: string, key: string) returns (r: Result<seq<Item>>)
    ensures r.Ok? <==> field in x.fields
    ensures r.Ok? ==> NoDup(r.value) && forall o :: o in r.value <==>
              o in x.store.Values && key in IndexKeys(o.ns, x.fields[field](o))
  {
    if field !in x.fields {
      return Err("index does not exist");
    }
    var f := x.fields[field];
    var matching := set o | o in x.store.Values && key in IndexKeys(o.ns, f(o));
    var objs := Enumerate(matching);
    return Ok(objs);
  }

  method Enumerate(items: set<Item>) returns (objs: seq<Item>)
    ensures NoDup(objs) && forall o :: o in objs <==> o in items
  {
    objs := [];
    var rest := items;
    while rest != {}
      invariant rest <= items && NoDup(objs)
      invariant forall o :: o in objs <==> o in items && o !in rest
    {
      var o :| o in rest;
      objs := objs + [o];
      rest := rest - {o};
    }
  }

  type LabelSelector = map<string, string> -> bool

  /** The plain filter that List stands for: the namespace, every requirement, and the labels. */
  predicate Selected(x: Indexer, ns: string, reqs: Option<seq<Requirement>>, sel: Option<LabelSelector>, o: Item) {
    && (ns == "" || o.ns == ns)
    && (reqs.Some? ==> forall i :: 0 <= i < |reqs.value| ==>
          reqs.value[i].field in x.fields && Meets(reqs.value[i], x.fields[reqs.value[i].field](o)))
    && (sel.Some? ==> sel.value(o.labels))
  }

  /** What the lookup in an index or in the store finds, before the label filter. */
  predicate Found(x: Indexer, ns: string, reqs: Option<seq<Requirement>>, o: Item)
    requires reqs.Some? ==> RequiresExactMatch(reqs.value) && reqs.value[0].field in x.fields
  {
    if reqs.Some? then KeyToNamespacedKey(ns, reqs.value[0].value) in IndexKeys(o.ns, x.fields[reqs.value[0].field](o))
    else ns == "" || o.ns == ns
  }

  /** No namespace in the query or the store has a slash, or there is no field selector. */
  ghost predicate Plain(x: Indexer, ns: string, reqs: Option<seq<Requirement>>) {
    reqs.Some? ==> NoSlash(ns) && forall o :: o in x.store.Values ==> NoSlash(o.ns)
  }

  lemma FoundIsSelected(x: Indexer, ns: string, reqs: Option<seq<Requirement>>, o: Item)
    requires reqs.Some? ==> RequiresExactMatch(reqs.value) && reqs.value[0].field in x.fields
    requires Plain(x, ns, reqs) && o in x.store.Values
    ensures Found(x, ns, reqs, o) <==> Selected(x, if ns == ALL_NAMESPACES && reqs.Some? then "" else ns, reqs, None, o)
  {
    if reqs.Some? {
      IndexMatches(ns, reqs.value[0].value, o.ns, x.fields[reqs.value[0].field](o));
    }
  }

  method List(x: Indexer, ns: string, reqs: Option<seq<Requirement>>, sel: Option<LabelSelector>)
    returns (r: Result<seq<Item>>)
    ensures r.Ok? <==> (reqs.Some? ==>
              && |reqs.value| == 1 && (reqs.value[0].op == Equals || reqs.value[0].op == DoubleEquals)
              && reqs.value[0].field in x.fields)
    ensures r.Ok? ==> NoDup(r.value)
    ensures r.Ok? ==> forall o :: o in r.value <==>
              o in x.store.Values && Found(x, ns, reqs, o) && (sel.Some? ==> sel.value(o.labels))
    ensures r.Ok? && Plain(x, ns, reqs) ==>
              forall o :: o in r.value <==>
                o in x.store.Values && Selected(x, if ns == ALL_NAMESPACES && reqs.Some? then "" else ns, reqs, sel, o)
  {
    var objs: seq<Item>;
    if reqs.Some? {
      if !RequiresExactMatch(reqs.value) {
        return Err("non-exact field matches are not supported by the cache");
      }
      var req := reqs.value[0];
      r := ByIndex(x, req.field, KeyToNamespacedKey(ns, req.value));
      if r.Err? {
        return;
      }
      objs := r.value;
    } else if ns != "" {
      objs := Enumerate(set o | o in x.store.Values && o.ns == ns);
    } else {
      objs := Enumerate(x.store.Values);
    }
    var out := FilterLabels(objs, sel);
    if Plain(x, ns, reqs) {
      forall o | o in x.store.Values
        ensures Found(x, ns, reqs, o) <==>
                Selected(x, if ns == ALL_NAMESPACES && reqs.Some? then "" else ns, reqs, None, o)
      {
        FoundIsSelected(x, ns, reqs, o);
      }
    }
    return Ok(out);
  }

  /** The loop over the objects that drops those the label selector does not match. */
  method FilterLabels(objs: seq<Item>, sel: Option<LabelSelector>) returns (out: seq<Item>)
    requires NoDup(objs)
    ensures NoDup(out) && forall o :: o in out <==> o in objs && (sel.Some? ==> sel.value(o.labels))
  {
    out := [];
    for i := 0 to |objs|
      invariant NoDup(out)
      invariant forall o :: o in out <==> o in objs[..i] && (sel.Some? ==> sel.value(o.labels))
    {
      assert objs[..i + 1] == objs[..i] + [objs[i]];
      if sel.Some? && !sel.value(objs[i].labels) {
        continue;
      }
      out := out + [objs[i]];
    }
    assert objs[..|objs|] == objs;
  }

  /** Under a root scope the namespace of the key is dropped. */
  function Get(x: Indexer, root: bool, ns: string, name: string): Option<Item> {
    var key := StoreKey(if root then "" else ns, name);
    if key in x.store then Some(x.store[key]) else None
  }

  lemma StoreKeysEqual(ns: string, name: string, ns': string, name': string)
    requires NoSlash(ns) && NoSlash(name) && NoSlash(ns') && NoSlash(name')
    ensures StoreKey(ns, name) == StoreKey(ns', name') <==> ns == ns' && name == name'
  {
    if ns != "" && ns' != "" && StoreKey(ns, name) == StoreKey(ns', name') {
      JoinInjective('/', ns, name, ns', name');
    }
    if ns != "" {
      Slashed(ns, name);
    }
    if ns' != "" {
      Slashed(ns', name');
    }
  }

  lemma Slashed(ns: string, name: string)
    ensures !NoSlash(ns + "/" + name)
  {
    assert (ns + "/" + name)[|ns|] == '/';
  }

  /** Get returns an object exactly when it has the name and the namespace asked for, where a root
      scope asks for none; so it finds a listed object by its own key exactly when the scope is
      namespaced or the object has no namespace. */
  lemma GetFinds(x: Indexer, root: bool, ns: string, name: string, o: Item)
    requires ValidStore(x) && NoSlash(ns) && NoSlash(name) && o in x.store.Values
    ensures Get(x, root, ns, name) == Some(o) <==> o.name == name && o.ns == (if root then "" else ns)
    ensures Get(x, root, o.ns, o.name) == Some(o) <==> !root || o.ns == ""
  {
    var k :| k in x.store && x.store[k] == o;
    StoreKeysEqual(if root then "" else ns, name, o.ns, o.name);
    StoreKeysEqual(if root then "" else o.ns, o.name, o.ns, o.name);
    var key, own := StoreKey(if root then "" else ns, name), StoreKey(if root then "" else o.ns, o.name);
    assert key in x.store && x.store[key] == o ==> key == k;
  }
}
