/** Refreshing the certificate and the CA bundles of the webhook configurations and CRDs
    (webhook/cert/manager.go, internal/webhook/cert/provisioner.go). */
module CaBundles {
  import opened Collections

  type Byte = b: int | 0 <= b < 256
  type Bytes = seq<Byte>

  predicate MatchesAt(b: Bytes, sub: Bytes, i: nat) {
    i + |sub| <= |b| && b[i..i + |sub|] == sub
  }

  /** bytes.Contains */
  ghost predicate Contains(b: Bytes, sub: Bytes) {
    exists i: nat :: MatchesAt(b, sub, i)
  }

  method ContainsBytes(b: Bytes, sub: Bytes) returns (found: bool)
    ensures found <==> Contains(b, sub)
  {
    var i: nat := 0;
    while i + |sub| <= |b|
      invariant forall k: nat :: k < i ==> !MatchesAt(b, sub, k)
    {
      if b[i..i + |sub|] == sub {
        assert MatchesAt(b, sub, i);
        return true;
      }
      i := i + 1;
    }
    return false;
  }

  /** The common bundle after looking at another one, and whether the two differ. */
  function CompareCABundles(common: Bytes, bundle: Bytes): (Bytes, bool) {
    var c := if |common| == 0 then bundle else common;
    if c != bundle then ([], true) else (c, false)
  }

  // ---------- the bundle in common ----------

  /** Over webhooks the comparison stops at the first difference. */
  function CommonOfWebhooks(common: Bytes, different: bool, bundles: seq<Bytes>): (Bytes, bool)
    decreases bundles
  {
    if bundles == [] || different then (common, different) else
      var (c, d) := CompareCABundles(common, bundles[0]);
      CommonOfWebhooks(c, d, bundles[1..])
  }

  /** Over CRDs it goes on after a difference. */
  function CommonOfCrds(common: Bytes, bundles: seq<Bytes>): Bytes
    decreases bundles
  {
    if bundles == [] then common else CommonOfCrds(CompareCABundles(common, bundles[0]).0, bundles[1..])
  }

  /** The configurations one after the other. */
  function Flatten(configs: seq<seq<Bytes>>): seq<Bytes> {
    if configs == [] then [] else configs[0] + Flatten(configs[1..])
  }

  function Common(webhooks: seq<seq<Bytes>>, crds: seq<Option<Bytes>>): Bytes {
    CommonOfCrds(CommonOfWebhooks([], false, Flatten(webhooks)).0, Present(crds))
  }

  /** The bundle that a refresh installs. */
  ghost function Installed(webhooks: seq<seq<Bytes>>, crds: seq<Option<Bytes>>, ca: Bytes): Bytes {
    var common := Common(webhooks, crds);
    if Contains(common, ca) then common else common + ca
  }

  ghost predicate Uniform(webhooks: seq<seq<Bytes>>, crds: seq<Option<Bytes>>, b: Bytes) {
    && (forall i, j :: 0 <= i < |webhooks| && 0 <= j < |webhooks[i]| ==> webhooks[i][j] == b)
    && (forall i :: 0 <= i < |crds| ==> crds[i] == Some(b))
  }

  function Filled(config: seq<Bytes>, b: Bytes): seq<Bytes> {
    seq(|config|, _ => b)
  }

  /** The first n objects hold the new bundle, the others what they held. */
  ghost predicate UpdatedUpTo(n: nat, b: Bytes, webhooks: seq<seq<Bytes>>, crds: seq<Option<Bytes>>,
                              webhooks': seq<seq<Bytes>>, crds': seq<Option<Bytes>>) {
    && |webhooks'| == |webhooks| && |crds'| == |crds|
    && (forall i :: 0 <= i < |webhooks| ==> webhooks'[i] == if i < n then Filled(webhooks[i], b) else webhooks[i])
    && (forall i :: 0 <= i < |crds| ==> crds'[i] == if |webhooks| + i < n then Some(b) else crds[i])
  }

  // ---------- facts about it ----------

  lemma {:induction false} WebhooksInCommon(b: Bytes, common: Bytes, bundles: seq<Bytes>)
    requires (forall i :: 0 <= i < |bundles| ==> bundles[i] == b) && (common == b || common == [])
    ensures CommonOfWebhooks(common, false, bundles) == (if bundles == [] then common else b, false)
    decreases bundles
  {
    if bundles != [] {
      WebhooksInCommon(b, b, bundles[1..]);
      assert |common| == 0 ==> common == [];
    }
  }

  lemma {:induction false} CrdsInCommon(b: Bytes, common: Bytes, bundles: seq<Bytes>)
    requires (forall i :: 0 <= i < |bundles| ==> bundles[i] == b) && (common == b || common == [])
    ensures CommonOfCrds(common, bundles) == if bundles == [] then common else b
    decreases bundles
  {
    if bundles != [] {
      CrdsInCommon(b, b, bundles[1..]);
      assert |common| == 0 ==> common == [];
    }
  }

  lemma {:induction false} FlattenAll(configs: seq<seq<Bytes>>, b: Bytes)
    requires forall i, j :: 0 <= i < |configs| && 0 <= j < |configs[i]| ==> configs[i][j] == b
    ensures forall k :: 0 <= k < |Flatten(configs)| ==> Flatten(configs)[k] == b
    ensures Flatten(configs) == [] <==> forall i :: 0 <= i < |configs| ==> configs[i] == []
  {
    if configs != [] {
      FlattenAll(configs[1..], b);
      assert forall i :: 0 < i < |configs| ==> configs[i] == configs[1..][i - 1];
    }
  }

  lemma {:induction false} PresentAll(crds: seq<Option<Bytes>>, b: Bytes)
    requires forall i :: 0 <= i < |crds| ==> crds[i] == Some(b)
    ensures |Present(crds)| == |crds| && forall k :: 0 <= k < |crds| ==> Present(crds)[k] == b
  {
    if crds != [] {
      PresentAll(crds[1..], b);
    }
  }

  /** Some webhook or CRD is managed. */
  ghost predicate Managed(webhooks: seq<seq<Bytes>>, crds: seq<Option<Bytes>>) {
    crds != [] || exists i :: 0 <= i < |webhooks| && webhooks[i] != []
  }

  /** A bundle that all of them hold is the common one. */
  lemma UniformIsCommon(webhooks: seq<seq<Bytes>>, crds: seq<Option<Bytes>>, b: Bytes)
    requires Uniform(webhooks, crds, b)
    ensures Managed(webhooks, crds) ==> Common(webhooks, crds) == b
    ensures !Managed(webhooks, crds) ==> Common(webhooks, crds) == []
  {
    FlattenAll(webhooks, b);
    PresentAll(crds, b);
    WebhooksInCommon(b, [], Flatten(webhooks));
    CrdsInCommon(b, CommonOfWebhooks([], false, Flatten(webhooks)).0, Present(crds));
  }

  lemma {:induction false} StaysCommon(common: Bytes, bundles: seq<Bytes>, b: Bytes)
    requires common != [] && b != []
    ensures CommonOfWebhooks(common, false, bundles).0 == b <==>
            common == b && forall i :: 0 <= i < |bundles| ==> bundles[i] == b
    decreases bundles
  {
    if bundles != [] && bundles[0] == common {
      StaysCommon(common, bundles[1..], b);
      assert bundles == [bundles[0]] + bundles[1..];
    }
  }

  /** Webhooks without a bundle, and then only webhooks with this one. */
  ghost predicate EmptyThen(bundles: seq<Bytes>, k: nat, b: Bytes) {
    && k < |bundles|
    && (forall i :: 0 <= i < k ==> bundles[i] == [])
    && (forall i :: k <= i < |bundles| ==> bundles[i] == b)
  }

  /** A bundle is found to be common to the webhooks exactly when all of them hold it from some point on
      and none before it holds any; an empty bundle is overlooked at the beginning only. */
  lemma {:induction false} WebhooksInCommonIff(bundles: seq<Bytes>, b: Bytes)
    requires b != []
    ensures CommonOfWebhooks([], false, bundles).0 == b <==> exists k: nat :: EmptyThen(bundles, k, b)
    decreases bundles
  {
    if bundles != [] {
      var rest := bundles[1..];
      if bundles[0] == [] {
        WebhooksInCommonIff(rest, b);
        if k: nat :| EmptyThen(rest, k, b) {
          assert EmptyThen(bundles, k + 1, b);
        }
        if k: nat :| EmptyThen(bundles, k, b) {
          assert EmptyThen(rest, k - 1, b);
        }
      } else {
        StaysCommon(bundles[0], rest, b);
        if bundles[0] == b && forall i :: 0 <= i < |rest| ==> rest[i] == b {
          assert EmptyThen(bundles, 0, b);
        }
        if k: nat :| EmptyThen(bundles, k, b) {
          assert forall i :: 0 <= i < |rest| ==> rest[i] == bundles[i + 1];
        }
      }
    }
  }

  /** A difference between webhooks is forgotten: the bundle of a CRD that follows counts as common. */
  lemma DifferenceForgotten(x: Bytes, y: Bytes, z: Bytes)
    requires x != [] && x != y
    ensures Common([[x, y]], [Some(z)]) == z && !exists b :: Uniform([[x, y]], [Some(z)], b)
  {
    var w, c := [[x, y]], [Some(z)];
    assert Flatten(w) == [x, y] by {
      assert w[1..] == [] && Flatten(w[1..]) == [];
    }
    assert CommonOfWebhooks([], false, [x, y]).0 == [] by {
      assert [x, y][1..] == [y] && CompareCABundles([], x) == (x, false) && CompareCABundles(x, y) == ([], true);
      assert CommonOfWebhooks(x, false, [y]) == CommonOfWebhooks([], true, [y][1..]);
    }
    assert Present(c) == [z] by {
      assert c[1..] == [] && Present(c[1..]) == [];
    }
    assert CommonOfCrds([], [z]) == CommonOfCrds(z, [z][1..]) == z;
    assert w[0][0] == x && w[0][1] == y;
  }

  /** When every object was updated they all hold the bundle, and there is as much to manage as before. */
  lemma AllUpdated(webhooks: seq<seq<Bytes>>, crds: seq<Option<Bytes>>, b: Bytes,
                   webhooks': seq<seq<Bytes>>, crds': seq<Option<Bytes>>)
    requires UpdatedUpTo(|webhooks| + |crds|, b, webhooks, crds, webhooks', crds')
    ensures Uniform(webhooks', crds', b) && Managed(webhooks', crds') == Managed(webhooks, crds)
  {
    assert forall i :: 0 <= i < |webhooks| ==> (webhooks'[i] == [] <==> webhooks[i] == []);
  }

  lemma AppendContains(b: Bytes, sub: Bytes)
    ensures Contains(b + sub, sub)
  {
    assert MatchesAt(b + sub, sub, |b|);
  }

  /** Whatever the bundles were, the installed one contains the CA; it is the common one, followed by the CA
      and nothing else where the CA was missing; and one that was common to all is a prefix of it. Once it is
      installed everywhere, the next refresh finds the CA in the common bundle, and so reports no change
      unless the certificate changes, exactly when there is something to manage or the CA is empty; with
      something to manage it installs the same bundle again. */
  lemma InstalledBundle(webhooks: seq<seq<Bytes>>, crds: seq<Option<Bytes>>, ca: Bytes, was: Bytes,
                        webhooks': seq<seq<Bytes>>, crds': seq<Option<Bytes>>)
    requires Uniform(webhooks', crds', Installed(webhooks, crds, ca))
    ensures Contains(Installed(webhooks, crds, ca), ca)
    ensures Installed(webhooks, crds, ca) == Common(webhooks, crds) ||
            (!Contains(Common(webhooks, crds), ca) && Installed(webhooks, crds, ca) == Common(webhooks, crds) + ca)
    ensures Uniform(webhooks, crds, was) && Managed(webhooks, crds) ==> was <= Installed(webhooks, crds, ca)
    ensures Contains(Common(webhooks', crds'), ca) <==> Managed(webhooks', crds') || ca == []
    ensures Managed(webhooks', crds') ==> Installed(webhooks', crds', ca) == Installed(webhooks, crds, ca)
  {
    AppendContains(Common(webhooks, crds), ca);
    UniformIsCommon(webhooks', crds', Installed(webhooks, crds, ca));
    if Uniform(webhooks, crds, was) {
      UniformIsCommon(webhooks, crds, was);
    }
    assert MatchesAt([], ca, 0) <==> ca == [];
  }

  // ---------- the manager ----------

  /** The stored webhook configurations (the mutating ones, then the validating ones), each with the
      bundles of its webhooks, and the CRDs, each with its bundle unless its conversion is misconfigured. */
  class Manager {
    var webhooks: seq<seq<Bytes>>
    var crds: seq<Option<Bytes>>

    constructor (w: seq<seq<Bytes>>, c: seq<Option<Bytes>>)
      ensures webhooks == w && crds == c
    {
      webhooks, crds := w, c;
    }

    method FindCommon() returns (r: Result<Bytes>)
      ensures r.Ok? <==> None !in crds
      ensures r.Ok? ==> r.value == Common(webhooks, crds)
    {
      var caBundle, different := [], false;
      for i := 0 to |webhooks|
        invariant CommonOfWebhooks([], false, Flatten(webhooks)) ==
                  CommonOfWebhooks(caBundle, different, Flatten(webhooks[i..]))
      {
        var config := webhooks[i];
        assert webhooks[i..][1..] == webhooks[i + 1..];
        ghost var rest := Flatten(webhooks[i + 1..]);
        assert config[0..] == config;
        for j := 0 to |config|
          invariant CommonOfWebhooks([], false, Flatten(webhooks)) ==
                    CommonOfWebhooks(caBundle, different, config[j..] + rest)
        {
          if different {
            break;
          }
          assert (config[j..] + rest)[1..] == config[j + 1..] + rest;
          var (c, d) := CompareCABundles(caBundle, config[j]);
          caBundle, different := c, d;
        }
        assert config[|config|..] + rest == rest;
      }
      assert CommonOfWebhooks([], false, Flatten(webhooks)) == (caBundle, different);
      for i := 0 to |crds|
        invariant None !in crds[..i]
        invariant Common(webhooks, crds) == CommonOfCrds(caBundle, Present(crds[i..]))
      {
        assert crds[..i + 1] == crds[..i] + [crds[i]] && crds[i..][1..] == crds[i + 1..];
        if crds[i].None? {
          return Err("CRD with misconfigured Spec.Conversion.Webhook.ClientConfig");
        }
        assert Present(crds[i..]) == [crds[i].value] + Present(crds[i + 1..]);
        caBundle := CompareCABundles(caBundle, crds[i].value).0;
      }
      assert crds[..|crds|] == crds;
      return Ok(caBundle);
    }

    /** Overwrites the bundle of every webhook of a configuration. */
    static method InjectForWebhook(config: seq<Bytes>, b: Bytes) returns (filled: seq<Bytes>)
      ensures filled == Filled(config, b)
    {
      filled := config;
      for i := 0 to |config|
        invariant |filled| == |config| && forall k :: 0 <= k < i ==> filled[k] == b
      {
        filled := filled[i := b];
      }
    }

    /** Stores the objects with the bundle injected, one after the other; the first update that fails
        ends it. */
    method BatchUpdate(b: Bytes, fails: Option<nat>) returns (ok: bool)
      modifies this
      ensures ok <==> fails.None? || fails.value >= |old(webhooks)| + |old(crds)|
      ensures UpdatedUpTo(if ok then |old(webhooks)| + |old(crds)| else fails.value, b,
                          old(webhooks), old(crds), webhooks, crds)
    {
      var n, m := |webhooks|, |crds|;
      for i := 0 to n + m
        invariant fails.Some? ==> i <= fails.value
        invariant UpdatedUpTo(i, b, old(webhooks), old(crds), webhooks, crds)
      {
        if fails == Some(i) {
          return false;
        }
        if i < n {
          var filled := InjectForWebhook(webhooks[i], b);
          webhooks := webhooks[i := filled];
        } else {
          crds := crds[i - n := Some(b)];
        }
      }
      return true;
    }

    /** The part of a refresh after the certificate is ensured: the CA joins the common bundle unless it
        is there, and the bundle goes to every object. */
    method Provision(caBundle: Bytes, caCert: Bytes, certChanged: bool, updateFails: Option<nat>)
      returns (r: Result<bool>)
      requires caBundle == Common(webhooks, crds) && None !in crds
      modifies this
      ensures r.Ok? <==> updateFails.None? || updateFails.value >= |old(webhooks)| + |old(crds)|
      ensures var b := Installed(old(webhooks), old(crds), caCert);
              && UpdatedUpTo(if r.Ok? then |old(webhooks)| + |old(crds)| else updateFails.value, b,
                             old(webhooks), old(crds), webhooks, crds)
              && (r.Ok? ==> Uniform(webhooks, crds, b) && Managed(webhooks, crds) == Managed(old(webhooks), old(crds)))
      ensures r.Ok? ==> (r.value <==> certChanged || !Contains(Common(old(webhooks), old(crds)), caCert))
      ensures r.Ok? ==>
                Uniform(webhooks, crds, if Contains(caBundle, caCert) then caBundle else caBundle + caCert)
    {
      var bundle, changed := caBundle, certChanged;
      var has := ContainsBytes(bundle, caCert);
      if !has {
        bundle := bundle + caCert;
        changed := true;
      }
      var ok := BatchUpdate(bundle, updateFails);
      if !ok {
        return Err("update failed");
      }
      AllUpdated(old(webhooks), old(crds), bundle, webhooks, crds);
      return Ok(changed);
    }
  }
}
