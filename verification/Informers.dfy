/** The map of informers and its double-checked locking (cache/informer/informersmap.go). */
module Informers {
  import opened Collections

  type Gvk = string

  /** What the mutex guards: the entry of each kind, whether Start has run, how often each entry's
      informer was launched, and how many entries were ever created. */
  datatype Shared = Shared(entries: map<Gvk, nat>, started: bool, launched: multiset<nat>, created: nat)

  const EMPTY := Shared(map[], false, multiset{}, 0)

  // ---------- the critical sections ----------

  /** The section of Start: launch what is in the map, then let later additions launch themselves. */
  function StartAll(s: Shared): Shared {
    s.(started := true, launched := s.launched + multiset(s.entries.Values))
  }

  /** The section of addInformerToMap: the second look, then a new entry. */
  function AddEntry(s: Shared, gvk: Gvk): Shared {
    if gvk in s.entries then s else
      Shared(s.entries[gvk := s.created], s.started,
             if s.started then s.launched + multiset{s.created} else s.launched, s.created + 1)
  }

  /** Each kind has its own entry; every entry's informer was launched never before Start and exactly
      once after it, and nothing else was launched. */
  ghost predicate Consistent(s: Shared) {
    && (forall k :: k in s.entries ==> s.entries[k] < s.created)
    && (forall k, l :: k in s.entries && l in s.entries && k != l ==> s.entries[k] != s.entries[l])
    && (forall id {:trigger s.launched[id]} ::
          s.launched[id] == if s.started && id in s.entries.Values then 1 else 0)
  }

  lemma StartKeeps(s: Shared)
    requires Consistent(s) && !s.started
    ensures Consistent(StartAll(s))
  {
  }

  lemma AddKeeps(s: Shared, gvk: Gvk)
    requires Consistent(s)
    ensures Consistent(AddEntry(s, gvk))
    ensures gvk in AddEntry(s, gvk).entries
  {
    if gvk !in s.entries {
      var t := AddEntry(s, gvk);
      assert s.created !in s.entries.Values;
      assert t.entries.Values == s.entries.Values + {s.created} by {
        assert t.entries[gvk] == s.created;
        forall v | v in s.entries.Values ensures v in t.entries.Values {
          var k :| k in s.entries && s.entries[k] == v;
          assert t.entries[k] == v;
        }
      }
    }
  }

  lemma LaunchOne(launched: multiset<nat>, informers: set<nat>, rest: set<nat>, informer: nat)
    requires rest <= informers && informer in rest
    ensures launched + multiset(informers - rest) + multiset{informer} ==
            launched + multiset(informers - (rest - {informer}))
  {
    assert informers - (rest - {informer}) == (informers - rest) + {informer};
  }

  class InformersMap {
    var entries: map<Gvk, nat>
    var started: bool
    var launched: multiset<nat>
    var created: nat

    constructor ()
      ensures View() == EMPTY
    {
      entries, started, launched, created := map[], false, multiset{}, 0;
    }

    function View(): Shared
      reads this
    {
      Shared(entries, started, launched, created)
    }

    /** The goroutine of Start, which holds the lock throughout. A second one launches everything again
        and then panics on closing the channel that is closed already. */
    method Start() returns (panics: bool)
      modifies this
      ensures View() == StartAll(old(View()))
      ensures panics <==> old(started)
    {
      var runs, informers, rest := launched, entries.Values, entries.Values;
      while rest != {}
        invariant View() == old(View())
        invariant rest <= informers && runs == launched + multiset(informers - rest)
      {
        var informer :| informer in rest;
        LaunchOne(launched, informers, rest, informer);
        runs := runs + multiset{informer};
        rest := rest - {informer};
      }
      assert informers - rest == informers;
      assert runs == launched + multiset(informers);
      panics := started;
      launched, started := runs, true;
    }

    method AddInformerToMap(gvk: Gvk, createErr: bool) returns (r: Result<nat>, st: bool)
      requires Consistent(View())
      modifies this
      ensures Consistent(View())
      ensures r.Err? <==> createErr && gvk !in old(entries)
      ensures View() == if r.Ok? then AddEntry(old(View()), gvk) else old(View())
      ensures r.Ok? ==> gvk in entries && r.value == entries[gvk] && st == started
    {
      AddKeeps(View(), gvk);
      if gvk in entries {
        return Ok(entries[gvk]), started;
      }
      if createErr {
        return Err("no list watcher"), false;
      }
      var i := created;
      entries := entries[gvk := i];
      created := created + 1;
      if started {
        launched := launched + multiset{i};
      }
      return Ok(i), started;
    }

    /** Get without other callers in between. */
    method Get(gvk: Gvk, createErr: bool, syncTimesOut: bool) returns (r: Result<nat>, st: bool)
      requires Consistent(View())
      modifies this
      ensures Consistent(View())
      ensures View() == if createErr && gvk !in old(entries) then old(View()) else AddEntry(old(View()), gvk)
      ensures r.Err? <==> (createErr && gvk !in old(entries)) || (old(started) && syncTimesOut)
      ensures r.Ok? ==> gvk in entries && r.value == entries[gvk] && st == started && (st ==> launched[r.value] == 1)
    {
      var ok := gvk in entries;
      st := started;
      var i := 0;
      if ok {
        i := entries[gvk];
      } else {
        r, st := AddInformerToMap(gvk, createErr);
        if r.Err? {
          return;
        }
        i := r.value;
      }
      if st && syncTimesOut {
        return Err("failed waiting for informer to sync"), st;
      }
      assert i in entries.Values;
      return Ok(i), st;
    }
  }

  // ---------- any number of callers ----------

  /** A caller of Get: before the first look, before the second, before the wait for the sync, returned. */
  datatype Caller = Calling(gvk: Gvk) | Adding(gvk: Gvk) | Syncing(gvk: Gvk, entry: nat, st: bool)
                  | Got(gvk: Gvk, entry: nat, st: bool) | Failed(gvk: Gvk)

  datatype State = State(shared: Shared, callers: seq<Caller>)

  datatype Move = Call(gvk: Gvk) | Look(i: nat) | Add(i: nat, createErr: bool) | Sync(i: nat, timesOut: bool)
                | StartRuns

  predicate Enabled(s: State, m: Move) {
    match m
    case Call(_) => true
    case Look(i) => i < |s.callers| && s.callers[i].Calling?
    case Add(i, _) => i < |s.callers| && s.callers[i].Adding?
    case Sync(i, timesOut) => i < |s.callers| && s.callers[i].Syncing? && (timesOut ==> s.callers[i].st)
    case StartRuns => !s.shared.started
  }

  function Next(s: State, m: Move): State
    requires Enabled(s, m)
  {
    match m
    case Call(gvk) => s.(callers := s.callers + [Calling(gvk)])
    case Look(i) =>
      var gvk := s.callers[i].gvk;
      s.(callers := s.callers[i := if gvk in s.shared.entries then Syncing(gvk, s.shared.entries[gvk], s.shared.started)
                                   else Adding(gvk)])
    case Add(i, createErr) =>
      var gvk := s.callers[i].gvk;
      if createErr && gvk !in s.shared.entries then s.(callers := s.callers[i := Failed(gvk)])
      else
        var t := AddEntry(s.shared, gvk);
        State(t, s.callers[i := Syncing(gvk, t.entries[gvk], t.started)])
    case Sync(i, timesOut) =>
      var c := s.callers[i];
      s.(callers := s.callers[i := if timesOut then Failed(c.gvk) else Got(c.gvk, c.entry, c.st)])
    case StartRuns => s.(shared := StartAll(s.shared))
  }

  /** What a caller is given when it has looked or added: the entry of its kind at that moment, and whether
      the map is started then; it keeps both until it returns, and it fails only for its own reasons. */
  lemma GivenAsItIs(s: State, m: Move, i: nat)
    requires Enabled(s, m) && i < |s.callers|
    ensures var c, d, t := s.callers[i], Next(s, m).callers[i], Next(s, m).shared;
            && (m == Look(i) ==> (d.Syncing? <==> c.gvk in s.shared.entries) && (d.Syncing? || d == Adding(c.gvk)))
            && (m.Add? && m.i == i ==>
                  (d.Failed? <==> m.createErr && c.gvk !in s.shared.entries) && (d.Failed? || d.Syncing?))
            && (m.Sync? && m.i == i ==> d == if m.timesOut then Failed(c.gvk) else Got(c.gvk, c.entry, c.st))
            && (d.Syncing? && !c.Syncing? ==>
                  d.gvk == c.gvk && d.gvk in t.entries && d.entry == t.entries[d.gvk] && d.st == t.started)
  {
  }

  /** What a caller holds is the entry of its kind; if it was told that the map is started, the
      entry's informer has been launched. */
  ghost predicate Holds(s: Shared, c: Caller) {
    c.Syncing? || c.Got? ==>
      c.gvk in s.entries && s.entries[c.gvk] == c.entry && (c.st ==> s.started)
  }

  ghost predicate Inv(s: State) {
    Consistent(s.shared) && forall i :: 0 <= i < |s.callers| ==> Holds(s.shared, s.callers[i])
  }

  /** Entries are never removed or replaced, and the map never stops. */
  ghost predicate Grows(s: Shared, t: Shared) {
    && (forall k :: k in s.entries ==> k in t.entries && t.entries[k] == s.entries[k])
    && (s.started ==> t.started)
  }

  lemma SectionsGrow(s: Shared, gvk: Gvk)
    ensures Grows(s, StartAll(s)) && Grows(s, AddEntry(s, gvk))
  {
  }

  lemma MoveKeeps(s: State, m: Move)
    requires Inv(s) && Enabled(s, m)
    ensures Inv(Next(s, m)) && Grows(s.shared, Next(s, m).shared)
  {
    match m
    case StartRuns =>
      StartKeeps(s.shared);
      SectionsGrow(s.shared, "");
    case Add(i, _) =>
      AddKeeps(s.shared, s.callers[i].gvk);
      SectionsGrow(s.shared, s.callers[i].gvk);
      StillHold(s.shared, AddEntry(s.shared, s.callers[i].gvk), s.callers);
    case _ =>
  }

  lemma StillHold(s: Shared, t: Shared, callers: seq<Caller>)
    requires Grows(s, t) && forall i :: 0 <= i < |callers| ==> Holds(s, callers[i])
    ensures forall i :: 0 <= i < |callers| ==> Holds(t, callers[i])
  {
  }

  ghost predicate Run(run: seq<State>, moves: seq<Move>) {
    && |run| == |moves| + 1 && run[0] == State(EMPTY, [])
    && forall k :: 0 <= k < |moves| ==> Enabled(run[k], moves[k]) && run[k + 1] == Next(run[k], moves[k])
  }

  lemma {:induction false} RunKeeps(run: seq<State>, moves: seq<Move>, j: nat, k: nat)
    requires Run(run, moves) && j <= k < |run|
    ensures Inv(run[k]) && Grows(run[j].shared, run[k].shared)
    decreases k
  {
    if j < k {
      RunKeeps(run, moves, j, k - 1);
      MoveKeeps(run[k - 1], moves[k - 1]);
    } else if k > 0 {
      RunKeeps(run, moves, k - 1, k - 1);
      MoveKeeps(run[k - 1], moves[k - 1]);
    }
  }

  lemma LaunchedOnce(s: Shared, gvk: Gvk)
    requires Consistent(s) && gvk in s.entries
    ensures s.launched[s.entries[gvk]] == if s.started then 1 else 0
  {
    assert s.entries[gvk] in s.entries.Values;
  }

  /** Whatever the interleaving of the callers and of Start: two successful calls of Get for a kind, at
      whatever times, return the same entry; it is still the kind's entry; its informer has been
      launched exactly once if the map is started and never otherwise; and a call that reported started
      returned an entry whose informer was launched. */
  lemma GetsAgree(run: seq<State>, moves: seq<Move>, j: nat, a: nat, k: nat, b: nat)
    requires Run(run, moves) && j <= k < |run| && a < |run[j].callers| && b < |run[k].callers|
    requires run[j].callers[a].Got? && run[k].callers[b].Got? && run[j].callers[a].gvk == run[k].callers[b].gvk
    ensures run[j].callers[a].entry == run[k].callers[b].entry
    ensures var id, now := run[j].callers[a].entry, run[k].shared;
            && run[j].callers[a].gvk in now.entries && now.entries[run[j].callers[a].gvk] == id
            && now.launched[id] == (if now.started then 1 else 0)
    ensures run[j].callers[a].st ==> run[j].shared.launched[run[j].callers[a].entry] == 1
  {
    RunKeeps(run, moves, j, j);
    RunKeeps(run, moves, j, k);
    assert Holds(run[j].shared, run[j].callers[a]);
    assert Holds(run[k].shared, run[k].callers[b]);
    LaunchedOnce(run[j].shared, run[j].callers[a].gvk);
    LaunchedOnce(run[k].shared, run[j].callers[a].gvk);
  }
}
