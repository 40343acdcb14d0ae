/** Exactly which bundle the comparison finds in common, and when that is one that all objects hold
    (webhook/cert/manager.go, refreshCert and compareCABundles). */
module CommonBundles {
  import opened Collections
  import opened CaBundles

  // ---------- the comparison over CRDs ----------

  /** Position k holds an empty bundle or the bundle of its predecessor; after it no bundle is empty and
      no two neighbours are equal. */
  ghost predicate Anchor(s: seq<Bytes>, k: nat) {
    && k < |s| && (s[k] == [] || (k > 0 && s[k] == s[k - 1]))
    && forall i :: k < i < |s| ==> s[i] != [] && s[i] != s[i - 1]
  }

  /** An even number of bundles follows one that is not empty, or an odd number one that is. */
  ghost predicate Outlasts(s: seq<Bytes>, k: nat)
    requires k < |s|
  {
    (|s| - 1 - k) % 2 == 0 <==> s[k] != []
  }

  /** The last bundle remains. */
  ghost predicate LastRemains(s: seq<Bytes>) {
    exists k: nat :: Anchor(s, k) && Outlasts(s, k)
  }

  lemma AnchorUnique(s: seq<Bytes>, k: nat, m: nat)
    requires Anchor(s, k) && Anchor(s, m)
    ensures k == m
  {
  }

  lemma {:induction false} CrdsSnoc(common: Bytes, bundles: seq<Bytes>, b: Bytes)
    ensures CommonOfCrds(common, bundles + [b]) == CompareCABundles(CommonOfCrds(common, bundles), b).0
    decreases bundles
  {
    if bundles == [] {
      assert ([] + [b])[1..] == [];
    } else {
      assert (bundles + [b])[1..] == bundles[1..] + [b];
      CrdsSnoc(CompareCABundles(common, bundles[0]).0, bundles[1..], b);
    }
  }

  /** One more bundle, after s with anchor k: an empty one, or one like the last, is the new anchor;
      any other changes whether the last one remains. */
  lemma OneMoreBundle(s: seq<Bytes>, k: nat, b: Bytes) returns (m: nat)
    requires Anchor(s, k)
    ensures Anchor(s + [b], m)
    ensures b == [] ==> !Outlasts(s + [b], m)
    ensures b != [] && b == s[|s| - 1] ==> Outlasts(s + [b], m)
    ensures b != [] && b != s[|s| - 1] ==> (Outlasts(s + [b], m) <==> !Outlasts(s, k))
  {
    m := if b == [] || b == s[|s| - 1] then |s| else k;
  }

  lemma {:induction false} CrdsLeave(common: Bytes, bundles: seq<Bytes>) returns (k: nat)
    ensures var s := [common, common] + bundles;
            && Anchor(s, k)
            && CommonOfCrds(common, bundles) == (if Outlasts(s, k) then s[|s| - 1] else [])
            && (Outlasts(s, k) ==> s[|s| - 1] != [])
    decreases bundles
  {
    if bundles == [] {
      k := 1;
      assert [common, common] + bundles == [common, common];
    } else {
      var init, b := bundles[..|bundles| - 1], bundles[|bundles| - 1];
      var k0 := CrdsLeave(common, init);
      CrdsSnoc(common, init, b);
      assert bundles == init + [b];
      assert [common, common] + bundles == [common, common] + init + [b];
      k := OneMoreBundle([common, common] + init, k0, b);
    }
  }

  /** The comparison over CRDs ends with bundle b exactly when b is the last bundle and remains. */
  lemma CrdsLeaveIff(common: Bytes, bundles: seq<Bytes>, b: Bytes)
    requires b != []
    ensures var s := [common, common] + bundles;
            CommonOfCrds(common, bundles) == b <==> s[|s| - 1] == b && LastRemains(s)
    ensures CommonOfCrds(common, bundles) != [] <==> LastRemains([common, common] + bundles)
  {
    var k := CrdsLeave(common, bundles);
    var s := [common, common] + bundles;
    if m: nat :| Anchor(s, m) && Outlasts(s, m) {
      AnchorUnique(s, k, m);
    }
  }

  // ---------- all of it ----------

  ghost predicate Shares(bundles: seq<Bytes>, b: Bytes) {
    exists k: nat :: EmptyThen(bundles, k, b)
  }

  /** The bundle that the webhooks share, where those before the first bundle may have none. */
  ghost function Shared(bundles: seq<Bytes>): Bytes {
    if bundles != [] && Shares(bundles, bundles[|bundles| - 1]) then bundles[|bundles| - 1] else []
  }

  lemma WebhooksShare(bundles: seq<Bytes>)
    ensures CommonOfWebhooks([], false, bundles).0 == Shared(bundles)
  {
    var c := CommonOfWebhooks([], false, bundles).0;
    if c != [] {
      WebhooksInCommonIff(bundles, c);
    }
    if Shared(bundles) != [] {
      WebhooksInCommonIff(bundles, Shared(bundles));
    }
  }

  /** What the comparison goes through after the webhooks: what they share, then the CRDs. */
  ghost function Compared(webhooks: seq<seq<Bytes>>, crds: seq<Option<Bytes>>): seq<Bytes> {
    var v := Shared(Flatten(webhooks));
    [v, v] + Present(crds)
  }

  /** A bundle is found to be common exactly when it comes last and remains. */
  lemma CommonIff(webhooks: seq<seq<Bytes>>, crds: seq<Option<Bytes>>, b: Bytes)
    requires b != []
    ensures var s := Compared(webhooks, crds);
            Common(webhooks, crds) == b <==> s[|s| - 1] == b && LastRemains(s)
    ensures Common(webhooks, crds) != [] <==> LastRemains(Compared(webhooks, crds))
  {
    WebhooksShare(Flatten(webhooks));
    CrdsLeaveIff(Shared(Flatten(webhooks)), Present(crds), b);
  }

  /** The objects do not all hold the same bundle, and still the last one remains. */
  ghost predicate Overlooked(webhooks: seq<seq<Bytes>>, crds: seq<Option<Bytes>>) {
    (forall b :: !Uniform(webhooks, crds, b)) && LastRemains(Compared(webhooks, crds))
  }

  /** A bundle that is found to be common is one that all objects hold, exactly when no difference is
      overlooked. */
  lemma CommonIsHeldIff(webhooks: seq<seq<Bytes>>, crds: seq<Option<Bytes>>)
    ensures (Common(webhooks, crds) != [] ==> Uniform(webhooks, crds, Common(webhooks, crds))) <==>
            !Overlooked(webhooks, crds)
  {
    var c := Common(webhooks, crds);
    CommonIff(webhooks, crds, if c == [] then [0] else c);
    if b :| Uniform(webhooks, crds, b) {
      UniformIsCommon(webhooks, crds, b);
    }
  }

  /** Two CRDs that agree at the end supply the common bundle, whatever came before. */
  lemma LastTwoSupply(webhooks: seq<seq<Bytes>>, crds: seq<Option<Bytes>>, b: Bytes)
    requires b != []
    ensures Common(webhooks, crds + [Some(b), Some(b)]) == b
  {
    var more := crds + [Some(b), Some(b)];
    PresentAppend(crds, [Some(b), Some(b)]);
    assert [Some(b), Some(b)][1..] == [Some(b)] && [Some(b)][1..] == [];
    assert Present([Some(b)]) == [b];
    assert Present([Some(b), Some(b)]) == [b, b];
    var s := Compared(webhooks, more);
    assert s[|s| - 2] == b && s[|s| - 1] == b;
    assert Anchor(s, |s| - 1) && Outlasts(s, |s| - 1);
    CommonIff(webhooks, more, b);
  }
}
