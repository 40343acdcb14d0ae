/** Recording RBAC rules and grouping them (rbac/client/record.go, rbac/client/result.go). */
module Rbac {
  import opened Collections
  import opened Strings

  datatype PolicyRule = PolicyRule(groups: seq<string>, resources: seq<string>, verbs: seq<string>)

  /** A group and a resource with verbs. */
  datatype Entry = Entry(group: string, resource: string, verbs: seq<string>)

  function KeyOf(e: Entry): string {
    e.group + "_" + e.resource
  }

  function RuleOf(e: Entry): PolicyRule {
    PolicyRule([e.group], [e.resource], e.verbs)
  }

  function RulesOf(es: seq<Entry>): (rules: seq<PolicyRule>)
    ensures OneGroup(rules) && HasGroup(rules)
  {
    seq(|es|, i requires 0 <= i < |es| => RuleOf(es[i]))
  }

  // ---------- the grouping ----------

  /** The entry joins the one with its key, or comes last. */
  function Merge(acc: seq<Entry>, e: Entry): seq<Entry> {
    if acc == [] then [e]
    else if KeyOf(acc[0]) == KeyOf(e) then [acc[0].(verbs := AddMissing(acc[0].verbs, e.verbs))] + acc[1..]
    else [acc[0]] + Merge(acc[1..], e)
  }

  function MergeAll(acc: seq<Entry>, es: seq<Entry>): seq<Entry> {
    if es == [] then acc else Merge(MergeAll(acc, es[..|es| - 1]), es[|es| - 1])
  }

  /** Every rule has a group; only the first one is looked at. */
  predicate HasGroup(rules: seq<PolicyRule>) {
    forall i :: 0 <= i < |rules| ==> |rules[i].groups| > 0
  }

  /** The rules have the one group the recorder gives them. */
  predicate OneGroup(rules: seq<PolicyRule>) {
    forall i :: 0 <= i < |rules| ==> |rules[i].groups| == 1
  }

  function EntriesOfRule(rule: PolicyRule): seq<Entry>
    requires |rule.groups| > 0
  {
    seq(|rule.resources|, i requires 0 <= i < |rule.resources| => Entry(rule.groups[0], rule.resources[i], rule.verbs))
  }

  function EntriesOf(rules: seq<PolicyRule>): seq<Entry>
    requires HasGroup(rules)
  {
    if rules == [] then [] else EntriesOf(rules[..|rules| - 1]) + EntriesOfRule(rules[|rules| - 1])
  }

  function Reordered(rules: seq<PolicyRule>): seq<PolicyRule>
    requires HasGroup(rules)
  {
    RulesOf(MergeAll([], EntriesOf(rules)))
  }

  /** What a set of rules grants. */
  ghost predicate Grants(rules: seq<PolicyRule>, g: string, r: string, v: string) {
    exists i :: 0 <= i < |rules| && g in rules[i].groups && r in rules[i].resources && v in rules[i].verbs
  }

  predicate Gives(e: Entry, g: string, r: string, v: string) {
    e.group == g && e.resource == r && v in e.verbs
  }

  ghost predicate Granted(es: seq<Entry>, g: string, r: string, v: string) {
    exists i :: 0 <= i < |es| && Gives(es[i], g, r, v)
  }

  predicate Same(a: Entry, b: Entry) {
    a.group == b.group && a.resource == b.resource
  }

  /** Entries with the same key are for the same group and resource. */
  ghost predicate KeysTell(es: seq<Entry>) {
    forall i, j :: 0 <= i < |es| && 0 <= j < |es| && KeyOf(es[i]) == KeyOf(es[j]) ==> Same(es[i], es[j])
  }

  function KeysOf(es: seq<Entry>): seq<string> {
    seq(|es|, i requires 0 <= i < |es| => KeyOf(es[i]))
  }

  // ---------- merging one entry ----------

  lemma {:induction false} MergeKeys(acc: seq<Entry>, e: Entry)
    ensures KeysOf(Merge(acc, e)) == if KeyOf(e) in KeysOf(acc) then KeysOf(acc) else KeysOf(acc) + [KeyOf(e)]
  {
    if acc != [] {
      var head, rest := acc[0], acc[1..];
      KeysCons(acc);
      if KeyOf(head) == KeyOf(e) {
        assert KeysOf(Merge(acc, e)) == KeysOf(acc);
      } else {
        MergeKeys(rest, e);
        assert Merge(acc, e)[1..] == Merge(rest, e);
        KeysCons(Merge(acc, e));
      }
    }
  }

  lemma KeysCons(es: seq<Entry>)
    requires es != []
    ensures KeysOf(es) == [KeyOf(es[0])] + KeysOf(es[1..])
  {
  }

  lemma {:induction false} MergeGrants(acc: seq<Entry>, e: Entry, g: string, r: string, v: string)
    requires forall i :: 0 <= i < |acc| && KeyOf(acc[i]) == KeyOf(e) ==> Same(acc[i], e)
    ensures Granted(Merge(acc, e), g, r, v) <==> Granted(acc, g, r, v) || Gives(e, g, r, v)
  {
    if acc == [] {
      assert Merge(acc, e)[0] == e;
    } else {
      var head, rest := acc[0], acc[1..];
      assert acc == [head] + rest;
      GrantedCons(head, rest, g, r, v);
      if KeyOf(head) == KeyOf(e) {
        AddMissingSpec(head.verbs, e.verbs);
        GrantedCons(head.(verbs := AddMissing(head.verbs, e.verbs)), rest, g, r, v);
      } else {
        MergeGrants(rest, e, g, r, v);
        GrantedCons(head, Merge(rest, e), g, r, v);
      }
    }
  }

  lemma GrantedCons(e: Entry, es: seq<Entry>, g: string, r: string, v: string)
    ensures Granted([e] + es, g, r, v) <==> Gives(e, g, r, v) || Granted(es, g, r, v)
  {
    var all := [e] + es;
    if i :| 0 <= i < |es| && Gives(es[i], g, r, v) {
      assert all[i + 1] == es[i];
    }
    if Gives(e, g, r, v) {
      assert all[0] == e;
    }
    if i :| 0 < i < |all| && Gives(all[i], g, r, v) {
      assert es[i - 1] == all[i];
    }
  }

  lemma GrantedSnoc(es: seq<Entry>, e: Entry, g: string, r: string, v: string)
    ensures Granted(es + [e], g, r, v) <==> Granted(es, g, r, v) || Gives(e, g, r, v)
  {
    var all := es + [e];
    if i :| 0 <= i < |es| && Gives(es[i], g, r, v) {
      assert all[i] == es[i];
    }
    assert all[|es|] == e;
  }

  /** Merging gives every entry the group and resource of one that was there. */
  lemma {:induction false} MergePairs(acc: seq<Entry>, e: Entry, i: nat)
    requires i < |Merge(acc, e)|
    ensures Same(Merge(acc, e)[i], e) || exists k :: 0 <= k < |acc| && Same(Merge(acc, e)[i], acc[k])
  {
    if acc != [] {
      if KeyOf(acc[0]) == KeyOf(e) {
        assert Same(Merge(acc, e)[i], acc[i]);
      } else if i == 0 {
        assert Same(Merge(acc, e)[0], acc[0]);
      } else {
        MergePairs(acc[1..], e, i - 1);
        if k :| 0 <= k < |acc[1..]| && Same(Merge(acc[1..], e)[i - 1], acc[1..][k]) {
          assert Same(Merge(acc, e)[i], acc[k + 1]);
        }
      }
    }
  }

  // ---------- merging all entries ----------

  ghost predicate Among(x: Entry, es: seq<Entry>) {
    exists k :: 0 <= k < |es| && Same(x, es[k])
  }

  lemma {:induction false} MergeAllPairs(es: seq<Entry>, i: nat)
    requires i < |MergeAll([], es)|
    ensures Among(MergeAll([], es)[i], es)
    decreases es
  {
    var init, last := es[..|es| - 1], es[|es| - 1];
    var acc := MergeAll([], init);
    MergePairs(acc, last, i);
    if k :| 0 <= k < |acc| && Same(Merge(acc, last)[i], acc[k]) {
      MergeAllPairs(init, k);
      var l :| 0 <= l < |init| && Same(acc[k], init[l]);
      assert Same(MergeAll([], es)[i], es[l]);
    } else {
      assert Same(MergeAll([], es)[i], es[|es| - 1]);
    }
  }

  /** The keys of the result are the keys of the entries in the order of their first appearance. */
  lemma {:induction false} MergeAllKeys(es: seq<Entry>)
    ensures KeysOf(MergeAll([], es)) == AddMissing([], KeysOf(es))
  {
    if es == [] {
      assert KeysOf(es) == [] && MergeAll([], es) == [];
    } else {
      var init, last := es[..|es| - 1], es[|es| - 1];
      MergeAllKeys(init);
      MergeKeys(MergeAll([], init), last);
      assert KeysOf(es)[..|es| - 1] == KeysOf(init) && KeysOf(es)[|es| - 1] == KeyOf(last);
    }
  }

  lemma {:induction false} MergeAllGrants(es: seq<Entry>, g: string, r: string, v: string)
    requires KeysTell(es)
    ensures Granted(MergeAll([], es), g, r, v) <==> Granted(es, g, r, v)
  {
    if es != [] {
      var init, last := es[..|es| - 1], es[|es| - 1];
      var acc := MergeAll([], init);
      assert es == init + [last];
      MergeAllGrants(init, g, r, v);
      forall i | 0 <= i < |acc| && KeyOf(acc[i]) == KeyOf(last) ensures Same(acc[i], last) {
        MergeAllPairs(init, i);
        var k :| 0 <= k < |init| && Same(acc[i], init[k]);
        assert Same(es[k], es[|es| - 1]);
      }
      MergeGrants(acc, last, g, r, v);
      GrantedSnoc(init, last, g, r, v);
    }
  }

  lemma OnePerKey(es: seq<Entry>, a: nat, b: nat)
    requires a < |es| && b < |es| && NoDup(KeysOf(es)) && KeyOf(es[a]) == KeyOf(es[b])
    ensures a == b
  {
    assert KeysOf(es)[a] == KeysOf(es)[b];
  }

  /** Two groups and resources with one key: one of them loses what it was granted. */
  lemma LostGrant(es: seq<Entry>, i: nat, j: nat) returns (k: nat)
    requires i < |es| && j < |es| && KeyOf(es[i]) == KeyOf(es[j]) && !Same(es[i], es[j])
    requires es[i].verbs != [] && es[j].verbs != []
    ensures k < |es| && es[k].verbs != [] && !Granted(MergeAll([], es), es[k].group, es[k].resource, es[k].verbs[0])
  {
    var result := MergeAll([], es);
    MergeAllKeys(es);
    AddMissingSpec([], KeysOf(es));
    k := i;
    if a :| 0 <= a < |result| && Gives(result[a], es[i].group, es[i].resource, es[i].verbs[0]) {
      k := j;
      if b :| 0 <= b < |result| && Gives(result[b], es[j].group, es[j].resource, es[j].verbs[0]) {
        OnePerKey(result, a, b);
      }
    }
  }

  ghost predicate SameGrants(a: seq<Entry>, b: seq<Entry>) {
    forall g, r, v :: Granted(a, g, r, v) <==> Granted(b, g, r, v)
  }

  /** Grouping keeps exactly what is granted if and only if no two groups and resources share a key
      (where every entry has a verb). */
  lemma GrantsKeptIff(es: seq<Entry>)
    requires forall i :: 0 <= i < |es| ==> es[i].verbs != []
    ensures SameGrants(MergeAll([], es), es) <==> KeysTell(es)
  {
    if KeysTell(es) {
      forall g, r, v ensures Granted(MergeAll([], es), g, r, v) <==> Granted(es, g, r, v) {
        MergeAllGrants(es, g, r, v);
      }
    } else {
      var i, j :| 0 <= i < |es| && 0 <= j < |es| && KeyOf(es[i]) == KeyOf(es[j]) && !Same(es[i], es[j]);
      var k := LostGrant(es, i, j);
      GivesOwn(es, k);
    }
  }

  lemma GivesOwn(es: seq<Entry>, k: nat)
    requires k < |es| && es[k].verbs != []
    ensures Granted(es, es[k].group, es[k].resource, es[k].verbs[0])
  {
    assert Gives(es[k], es[k].group, es[k].resource, es[k].verbs[0]);
  }

  /** Groups without an underscore keep the keys apart. */
  lemma PlainGroupsTell(es: seq<Entry>)
    requires forall i :: 0 <= i < |es| ==> Free(es[i].group, '_')
    ensures KeysTell(es)
  {
    forall i, j | 0 <= i < |es| && 0 <= j < |es| && KeyOf(es[i]) == KeyOf(es[j]) ensures Same(es[i], es[j]) {
      JoinInjective('_', es[i].group, es[i].resource, es[j].group, es[j].resource);
    }
  }

  /** Entries with different keys stay as they are. */
  lemma {:induction false} MergeAllDistinct(es: seq<Entry>)
    requires NoDup(KeysOf(es))
    ensures MergeAll([], es) == es
  {
    if es != [] {
      var init, last := es[..|es| - 1], es[|es| - 1];
      assert KeysOf(init) == KeysOf(es)[..|es| - 1];
      MergeAllDistinct(init);
      assert KeyOf(last) !in KeysOf(init) by {
        assert KeysOf(es)[|es| - 1] == KeyOf(last);
      }
      MergeNew(init, last);
      assert es == init + [last];
    }
  }

  lemma {:induction false} MergeNew(acc: seq<Entry>, e: Entry)
    requires KeyOf(e) !in KeysOf(acc)
    ensures Merge(acc, e) == acc + [e]
  {
    if acc != [] {
      assert KeysOf(acc)[0] == KeyOf(acc[0]);
      assert KeysOf(acc[1..]) == KeysOf(acc)[1..];
      MergeNew(acc[1..], e);
    }
  }

  lemma {:induction false} MergeNoDupVerbs(acc: seq<Entry>, e: Entry)
    requires NoDup(e.verbs) && forall i :: 0 <= i < |acc| ==> NoDup(acc[i].verbs)
    ensures forall i :: 0 <= i < |Merge(acc, e)| ==> NoDup(Merge(acc, e)[i].verbs)
  {
    if acc != [] {
      if KeyOf(acc[0]) == KeyOf(e) {
        AddMissingSpec(acc[0].verbs, e.verbs);
      } else {
        MergeNoDupVerbs(acc[1..], e);
      }
    }
  }

  lemma {:induction false} MergeAllNoDupVerbs(es: seq<Entry>)
    requires forall i :: 0 <= i < |es| ==> NoDup(es[i].verbs)
    ensures forall i :: 0 <= i < |MergeAll([], es)| ==> NoDup(MergeAll([], es)[i].verbs)
  {
    if es != [] {
      MergeAllNoDupVerbs(es[..|es| - 1]);
      MergeNoDupVerbs(MergeAll([], es[..|es| - 1]), es[|es| - 1]);
    }
  }

  // ---------- rules ----------

  lemma {:induction false} EntriesOfRulesOf(es: seq<Entry>)
    ensures OneGroup(RulesOf(es)) && EntriesOf(RulesOf(es)) == es
  {
    if es != [] {
      var init, last := es[..|es| - 1], es[|es| - 1];
      EntriesOfRulesOf(init);
      assert RulesOf(es)[..|es| - 1] == RulesOf(init);
      assert EntriesOfRule(RuleOf(last)) == [last];
    }
  }

  lemma {:induction false} GrantsOfEntries(rules: seq<PolicyRule>, g: string, r: string, v: string)
    requires OneGroup(rules)
    ensures Grants(rules, g, r, v) <==> Granted(EntriesOf(rules), g, r, v)
  {
    if rules != [] {
      var init, last := rules[..|rules| - 1], rules[|rules| - 1];
      GrantsOfEntries(init, g, r, v);
      assert rules == init + [last];
      GrantsOfRule(init, last, g, r, v);
      var a, b := EntriesOf(init), EntriesOfRule(last);
      assert forall i :: 0 <= i < |a| ==> (a + b)[i] == a[i];
      assert forall i :: 0 <= i < |b| ==> (a + b)[|a| + i] == b[i];
    }
  }

  lemma GrantsOfRule(init: seq<PolicyRule>, last: PolicyRule, g: string, r: string, v: string)
    requires |last.groups| == 1
    ensures Grants(init + [last], g, r, v) <==> Grants(init, g, r, v) || Granted(EntriesOfRule(last), g, r, v)
  {
    var rules, es := init + [last], EntriesOfRule(last);
    assert rules[|init|] == last;
    if i :| 0 <= i < |init| && g in init[i].groups && r in init[i].resources && v in init[i].verbs {
      assert rules[i] == init[i];
    }
    if r in last.resources {
      var i :| 0 <= i < |last.resources| && last.resources[i] == r;
      assert es[i].resource == r;
    }
  }

  /** The grouped rules grant what the rules grant; there is one rule per group and resource, in the
      order of first appearance; and grouping again changes nothing. */
  lemma ReorderedRules(rules: seq<PolicyRule>)
    requires OneGroup(rules) && KeysTell(EntriesOf(rules))
    ensures forall g, r, v :: Grants(Reordered(rules), g, r, v) <==> Grants(rules, g, r, v)
    ensures OneGroup(Reordered(rules))
    ensures KeysOf(EntriesOf(Reordered(rules))) == AddMissing([], KeysOf(EntriesOf(rules)))
    ensures NoDup(KeysOf(EntriesOf(Reordered(rules))))
    ensures Reordered(Reordered(rules)) == Reordered(rules)
  {
    var es := MergeAll([], EntriesOf(rules));
    EntriesOfRulesOf(es);
    MergeAllKeys(EntriesOf(rules));
    AddMissingSpec([], KeysOf(EntriesOf(rules)));
    MergeAllDistinct(es);
    forall g, r, v ensures Grants(Reordered(rules), g, r, v) <==> Grants(rules, g, r, v) {
      GrantsOfEntries(Reordered(rules), g, r, v);
      GrantsOfEntries(rules, g, r, v);
      MergeAllGrants(EntriesOf(rules), g, r, v);
    }
  }

  // ---------- the loops ----------

  method Contains(s: seq<string>, e: string) returns (found: bool)
    ensures found <==> e in s
  {
    for i := 0 to |s|
      invariant e !in s[..i]
    {
      if s[i] == e {
        return true;
      }
    }
    return false;
  }

  lemma {:induction false} MergeAt(acc: seq<Entry>, e: Entry, k: nat)
    requires k < |acc| && NoDup(KeysOf(acc)) && KeyOf(acc[k]) == KeyOf(e)
    ensures Merge(acc, e) == acc[k := acc[k].(verbs := AddMissing(acc[k].verbs, e.verbs))]
    decreases k
  {
    if k > 0 {
      assert KeysOf(acc)[0] != KeysOf(acc)[k];
      assert KeysOf(acc[1..]) == KeysOf(acc)[1..];
      MergeAt(acc[1..], e, k - 1);
    }
  }

  /** The list of names and the map of rules stand for the merged entries. */
  ghost predicate Stands(names: seq<string>, byKey: map<string, PolicyRule>, acc: seq<Entry>) {
    && names == KeysOf(acc) && NoDup(names)
    && (forall n :: n in byKey <==> n in names)
    && forall k :: 0 <= k < |acc| ==> byKey[names[k]] == RuleOf(acc[k])
  }

  lemma StandsMerged(names: seq<string>, byKey: map<string, PolicyRule>, acc: seq<Entry>, e: Entry, verbs: seq<string>)
    requires Stands(names, byKey, acc) && KeyOf(e) in byKey && verbs == AddMissing(byKey[KeyOf(e)].verbs, e.verbs)
    ensures Stands(names, byKey[KeyOf(e) := byKey[KeyOf(e)].(verbs := verbs)], Merge(acc, e))
  {
    var k :| 0 <= k < |names| && names[k] == KeyOf(e);
    assert KeyOf(acc[k]) == KeyOf(e);
    MergeAt(acc, e, k);
    StandsUpdated(names, byKey, acc, k, acc[k].(verbs := verbs));
  }

  lemma StandsUpdated(names: seq<string>, byKey: map<string, PolicyRule>, acc: seq<Entry>, k: nat, x: Entry)
    requires Stands(names, byKey, acc) && k < |acc| && Same(x, acc[k])
    ensures Stands(names, byKey[names[k] := RuleOf(x)], acc[k := x])
  {
    assert KeysOf(acc[k := x]) == names;
  }

  lemma StandsNew(names: seq<string>, byKey: map<string, PolicyRule>, acc: seq<Entry>, e: Entry)
    requires Stands(names, byKey, acc) && KeyOf(e) !in byKey
    ensures Stands(names + [KeyOf(e)], byKey[KeyOf(e) := RuleOf(e)], Merge(acc, e))
  {
    MergeNew(acc, e);
    MergeKeys(acc, e);
  }

  method AppendVerbs(verbs: seq<string>, more: seq<string>) returns (all: seq<string>)
    ensures all == AddMissing(verbs, more)
  {
    all := verbs;
    for m := 0 to |more|
      invariant all == AddMissing(verbs, more[..m])
    {
      assert more[..m + 1][..m] == more[..m];
      var has := Contains(all, more[m]);
      if !has {
        all := all + [more[m]];
      }
    }
    assert more[..|more|] == more;
  }

  lemma MergeAllSnoc(es: seq<Entry>, e: Entry)
    ensures MergeAll([], es + [e]) == Merge(MergeAll([], es), e)
  {
    assert (es + [e])[..|es|] == es;
  }

  /** One resource of a rule. */
  method MergeEntry(names: seq<string>, byKey: map<string, PolicyRule>, group: string, resource: string,
                    verbs: seq<string>, ghost acc: seq<Entry>)
    returns (names': seq<string>, byKey': map<string, PolicyRule>)
    requires Stands(names, byKey, acc)
    ensures Stands(names', byKey', Merge(acc, Entry(group, resource, verbs)))
  {
    names', byKey' := names, byKey;
    ghost var e := Entry(group, resource, verbs);
    var name := group + "_" + resource;
    if name in byKey {
      var prule := byKey[name];
      var all := AppendVerbs(prule.verbs, verbs);
      StandsMerged(names, byKey, acc, e, all);
      byKey' := byKey[name := prule.(verbs := all)];
    } else {
      StandsNew(names, byKey, acc, e);
      names' := names + [name];
      byKey' := byKey[name := PolicyRule([group], [resource], verbs)];
    }
  }

  /** The loop over the resources of a rule. */
  method MergeRule(names: seq<string>, byKey: map<string, PolicyRule>, rule: PolicyRule, ghost before: seq<Entry>)
    returns (names': seq<string>, byKey': map<string, PolicyRule>)
    requires |rule.groups| > 0 && Stands(names, byKey, MergeAll([], before))
    ensures Stands(names', byKey', MergeAll([], before + EntriesOfRule(rule)))
  {
    names', byKey' := names, byKey;
    var group := rule.groups[0];
    ghost var es := EntriesOfRule(rule);
    assert before + es[..0] == before;
    for j := 0 to |rule.resources|
      invariant Stands(names', byKey', MergeAll([], before + es[..j]))
    {
      ghost var done, e := before + es[..j], es[j];
      assert before + es[..j + 1] == done + [e];
      MergeAllSnoc(done, e);
      names', byKey' := MergeEntry(names', byKey', group, rule.resources[j], rule.verbs, MergeAll([], done));
    }
    assert es[..|rule.resources|] == es;
  }

  lemma EntriesSnoc(rules: seq<PolicyRule>, i: nat)
    requires HasGroup(rules) && i < |rules|
    ensures HasGroup(rules[..i]) && HasGroup(rules[..i + 1])
    ensures EntriesOf(rules[..i + 1]) == EntriesOf(rules[..i]) + EntriesOfRule(rules[i])
  {
    assert rules[..i + 1][..i] == rules[..i];
  }

  lemma RulesSnoc(es: seq<Entry>, i: nat)
    requires i < |es|
    ensures RulesOf(es[..i + 1]) == RulesOf(es[..i]) + [RuleOf(es[i])]
  {
  }

  method ReorderRules(rules: seq<PolicyRule>) returns (result: seq<PolicyRule>)
    requires HasGroup(rules)
    ensures result == Reordered(rules)
  {
    var names: seq<string>, byKey: map<string, PolicyRule> := [], map[];
    for i := 0 to |rules|
      invariant HasGroup(rules[..i]) && Stands(names, byKey, MergeAll([], EntriesOf(rules[..i])))
    {
      EntriesSnoc(rules, i);
      names, byKey := MergeRule(names, byKey, rules[i], EntriesOf(rules[..i]));
    }
    assert rules[..|rules|] == rules;
    ghost var acc := MergeAll([], EntriesOf(rules));
    result := [];
    for i := 0 to |names|
      invariant result == RulesOf(acc[..i])
    {
      RulesSnoc(acc, i);
      result := result + [byKey[names[i]]];
    }
    assert acc[..|names|] == acc;
  }

  // ---------- recording ----------

  /** One recorded call, or a Result that groups the rules of both roles. */
  datatype Op = Record(group: string, resource: string, verb: string, status: bool, namespaced: bool) | Reorder

  datatype Roles = Roles(role: seq<PolicyRule>, clusterRole: seq<PolicyRule>)

  function ResourceName(resource: string, status: bool): string {
    if status then resource + "/" + "status" else resource
  }

  function RuleFor(op: Op): PolicyRule
    requires op.Record?
  {
    PolicyRule([op.group], [ResourceName(op.resource, op.status)], [op.verb])
  }

  function Step(s: Roles, op: Op): Roles
    requires HasGroup(s.role) && HasGroup(s.clusterRole)
  {
    if op.Reorder? then Roles(Reordered(s.role), Reordered(s.clusterRole))
    else if op.namespaced then s.(role := s.role + [RuleFor(op)])
    else s.(clusterRole := s.clusterRole + [RuleFor(op)])
  }

  class RbacClient {
    var role: seq<PolicyRule>
    var clusterRole: seq<PolicyRule>
    var errors: nat

    constructor ()
      ensures View() == Roles([], []) && errors == 0
    {
      role, clusterRole, errors := [], [], 0;
    }

    function View(): Roles
      reads this
    {
      Roles(role, clusterRole)
    }

    /** gvr: the group and resource of the object, if its kind is known; namespaced: its scope, if that
        can be found out. Without them an empty group and resource, or a cluster rule, is recorded. */
    method RecordRuleWithStatus(gvr: Option<(string, string)>, namespaced: Option<bool>, verb: string, status: bool)
      requires HasGroup(role) && HasGroup(clusterRole)
      modifies this
      ensures var (g, r) := if gvr.Some? then gvr.value else ("", "");
              View() == Step(old(View()), Record(g, r, verb, status, namespaced == Some(true)))
      ensures errors == old(errors) + (if gvr.None? then 1 else 0) + (if namespaced.None? then 1 else 0)
    {
      var group, resource := "", "";
      if gvr.None? {
        errors := errors + 1;
      } else {
        group, resource := gvr.value.0, gvr.value.1;
      }
      if namespaced.None? {
        errors := errors + 1;
      }
      if status {
        resource := resource + "/" + "status";
      }
      var rule := PolicyRule([group], [resource], [verb]);
      if namespaced == Some(true) {
        role := role + [rule];
      } else {
        clusterRole := clusterRole + [rule];
      }
    }

    /** The grouping in Result. */
    method ReorderRoles()
      requires HasGroup(role) && HasGroup(clusterRole)
      modifies this
      ensures View() == Step(old(View()), Reorder) && errors == old(errors)
    {
      role := ReorderRules(role);
      clusterRole := ReorderRules(clusterRole);
    }
  }

  // ---------- any sequence of calls ----------

  /** The rules the recorder makes: one group, without an underscore, and verbs without repetition. */
  ghost predicate Recorded(rules: seq<PolicyRule>) {
    && OneGroup(rules)
    && forall i :: 0 <= i < |EntriesOf(rules)| ==>
         Free(EntriesOf(rules)[i].group, '_') && NoDup(EntriesOf(rules)[i].verbs)
  }

  lemma AsksFor(op: Op, g: string, r: string, v: string)
    requires op.Record?
    ensures Asks(op, op.namespaced, g, r, v) <==>
            Gives(Entry(op.group, ResourceName(op.resource, op.status), [op.verb]), g, r, v)
  {
    assert op.resource + "/" + "status" == op.resource + "/status";
    assert v in [op.verb] <==> v == op.verb;
  }

  lemma RecordedSnoc(rules: seq<PolicyRule>, op: Op)
    requires Recorded(rules) && op.Record? && Free(op.group, '_')
    ensures Recorded(rules + [RuleFor(op)])
    ensures forall g, r, v :: Grants(rules + [RuleFor(op)], g, r, v) <==>
              Grants(rules, g, r, v) || Asks(op, op.namespaced, g, r, v)
  {
    var all, rule := rules + [RuleFor(op)], RuleFor(op);
    assert all[..|all| - 1] == rules;
    var e := Entry(op.group, ResourceName(op.resource, op.status), [op.verb]);
    assert EntriesOfRule(rule) == [e];
    forall g, r, v ensures Grants(all, g, r, v) <==> Grants(rules, g, r, v) || Asks(op, op.namespaced, g, r, v) {
      GrantsOfRule(rules, rule, g, r, v);
      AsksFor(op, g, r, v);
      assert Granted([e], g, r, v) <==> Gives([e][0], g, r, v);
    }
  }

  lemma RecordedReordered(rules: seq<PolicyRule>)
    requires Recorded(rules)
    ensures Recorded(Reordered(rules))
    ensures forall g, r, v :: Grants(Reordered(rules), g, r, v) <==> Grants(rules, g, r, v)
  {
    var es := EntriesOf(rules);
    PlainGroupsTell(es);
    ReorderedRules(rules);
    EntriesOfRulesOf(MergeAll([], es));
    MergeAllNoDupVerbs(es);
    forall i | 0 <= i < |MergeAll([], es)| ensures Free(MergeAll([], es)[i].group, '_') {
      MergeAllPairs(es, i);
    }
  }

  function After(ops: seq<Op>): (s: Roles)
    ensures HasGroup(s.role) && HasGroup(s.clusterRole)
  {
    if ops == [] then Roles([], []) else
      var s := After(ops[..|ops| - 1]);
      Step(s, ops[|ops| - 1])
  }

  /** Some recorded call asked for the permission in the scope. */
  ghost predicate Called(ops: seq<Op>, namespaced: bool, g: string, r: string, v: string) {
    exists i :: 0 <= i < |ops| && Asks(ops[i], namespaced, g, r, v)
  }

  predicate Asks(op: Op, namespaced: bool, g: string, r: string, v: string) {
    && op.Record? && op.namespaced == namespaced
    && op.group == g && op.verb == v
    && (if op.status then r == op.resource + "/status" else r == op.resource)
  }

  lemma CalledSnoc(ops: seq<Op>, op: Op, namespaced: bool, g: string, r: string, v: string)
    ensures Called(ops + [op], namespaced, g, r, v) <==>
            Called(ops, namespaced, g, r, v) || Asks(op, namespaced, g, r, v)
  {
    var all := ops + [op];
    assert all[|ops|] == op;
    if i :| 0 <= i < |ops| && Asks(ops[i], namespaced, g, r, v) {
      assert all[i] == ops[i];
    }
  }

  /** After any sequence of recorded calls and groupings each role grants exactly what was recorded in
      its scope, and no rule repeats a verb. */
  lemma {:induction false} RolesGrantRecorded(ops: seq<Op>, g: string, r: string, v: string)
    requires forall i :: 0 <= i < |ops| && ops[i].Record? ==> Free(ops[i].group, '_')
    ensures Recorded(After(ops).role) && Recorded(After(ops).clusterRole)
    ensures Grants(After(ops).role, g, r, v) <==> Called(ops, true, g, r, v)
    ensures Grants(After(ops).clusterRole, g, r, v) <==> Called(ops, false, g, r, v)
    decreases ops
  {
    if ops != [] {
      var init, op := ops[..|ops| - 1], ops[|ops| - 1];
      assert ops == init + [op];
      RolesGrantRecorded(init, g, r, v);
      CalledSnoc(init, op, true, g, r, v);
      CalledSnoc(init, op, false, g, r, v);
      var s := After(init);
      if op.Reorder? {
        RecordedReordered(s.role);
        RecordedReordered(s.clusterRole);
      } else if op.namespaced {
        RecordedSnoc(s.role, op);
      } else {
        RecordedSnoc(s.clusterRole, op);
      }
    }
  }

  /** A recorded call for the status of a resource grants its verb on the status, and on the resource itself
      only if another call asked for that. */
  lemma StatusGranted(ops: seq<Op>, i: nat)
    requires forall j :: 0 <= j < |ops| && ops[j].Record? ==> Free(ops[j].group, '_')
    requires i < |ops| && ops[i].Record? && ops[i].status
    ensures var op, s := ops[i], After(ops);
            var rules := if op.namespaced then s.role else s.clusterRole;
            && Grants(rules, op.group, op.resource + "/status", op.verb)
            && (Grants(rules, op.group, op.resource, op.verb) ==>
                  exists j :: 0 <= j < |ops| && j != i && Asks(ops[j], op.namespaced, op.group, op.resource, op.verb))
  {
    var op := ops[i];
    RolesGrantRecorded(ops, op.group, op.resource + "/status", op.verb);
    RolesGrantRecorded(ops, op.group, op.resource, op.verb);
    assert Asks(ops[i], op.namespaced, op.group, op.resource + "/status", op.verb);
    assert |op.resource + "/status"| > |op.resource|;
  }
}
