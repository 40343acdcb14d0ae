/** A refresh by the certificate manager: the certificate from the writer, the CA into the bundles
    (webhook/cert/manager.go, refreshCert, and internal/webhook/cert/provisioner.go, Provision). */
module CertRefresh {
  import opened Collections
  import B = CaBundles
  import C = Certificates

  /** What goes wrong during a refresh, and what another manager does. */
  datatype Weather = Weather(getFails: bool, faults: C.Faults, racer: Option<C.Artifacts>, updateFails: Option<nat>)

  predicate Calm(e: Weather) {
    e == Weather(false, C.Faults(false, false, false, false), None, None)
  }

  lemma NothingToDo(w: seq<seq<B.Bytes>>, c: seq<Option<B.Bytes>>, b: B.Bytes, ca: B.Bytes, w': seq<seq<B.Bytes>>,
                    c': seq<Option<B.Bytes>>)
    requires B.Uniform(w, c, b) && B.Managed(w, c) && B.Contains(b, ca)
    requires B.UpdatedUpTo(|w| + |c|, B.Installed(w, c, ca), w, c, w', c')
    ensures B.Contains(B.Common(w, c), ca) && w' == w && c' == c
  {
    B.UniformIsCommon(w, c, b);
    forall i | 0 <= i < |w| ensures w'[i] == w[i] {
      assert B.Filled(w[i], b) == w[i];
    }
  }

  class CertManager {
    const objects: B.Manager
    const writer: C.SecretCertWriter
    const pem: C.CA -> B.Bytes // the CA certificate as it stands in a bundle

    constructor (o: B.Manager, w: C.SecretCertWriter, p: C.CA -> B.Bytes)
      ensures objects == o && writer == w && pem == p
    {
      objects, writer, pem := o, w, p;
    }

    /** The secret holds the artifacts, all objects hold one bundle, and their CA is in it. */
    ghost predicate Synced(a: C.Artifacts)
      reads objects, writer
    {
      && writer.cluster.secret == Some(Some(a))
      && exists b :: B.Uniform(objects.webhooks, objects.crds, b) && B.Contains(b, pem(a.ca))
    }

    /** After a success the secret and the objects are in step, with the artifacts that certs returns. A
        refresh that finds them in step, with a certificate that is still good and something to manage,
        reports no change and changes nothing. What fails before the certificate is ensured changes
        nothing, and an update that fails leaves the objects before it with the new bundle. */
    method RefreshCert(x: C.Crypto, host: bool, service: bool, dnsName: string, e: Weather)
      returns (r: Result<bool>, ghost certs: Option<C.Artifacts>, ghost certChanged: bool)
      modifies objects, writer`cluster, writer.generator
      ensures writer.cluster.now == old(writer.cluster.now)
      ensures var n := |old(objects.webhooks)| + |old(objects.crds)|;
              r.Ok? <==> certs.Some? && (e.updateFails.None? || e.updateFails.value >= n)
      ensures r.Ok? ==> Synced(certs.value)
      ensures var common := B.Common(old(objects.webhooks), old(objects.crds));
              r.Ok? ==> (r.value <==> certChanged || !B.Contains(common, pem(certs.value.ca)))
      ensures certs.Some? && !certChanged ==>
              writer.cluster == old(writer.cluster) && x.validCert(certs.value, writer.cluster.now)
      ensures r.Ok? ==>
                && B.Uniform(objects.webhooks, objects.crds,
                             B.Installed(old(objects.webhooks), old(objects.crds), pem(certs.value.ca)))
                && B.Managed(objects.webhooks, objects.crds) == B.Managed(old(objects.webhooks), old(objects.crds))
      ensures host == service || dnsName == "" || e.getFails || None in old(objects.crds) ==>
                r.Err? && writer.cluster == old(writer.cluster)
      ensures certs.None? ==> r.Err? && objects.webhooks == old(objects.webhooks) && objects.crds == old(objects.crds)
      ensures certs.Some? && r.Err? ==>
                && e.updateFails.Some? && writer.cluster.secret == Some(certs)
                && B.UpdatedUpTo(e.updateFails.value,
                                 B.Installed(old(objects.webhooks), old(objects.crds), pem(certs.value.ca)),
                                 old(objects.webhooks), old(objects.crds), objects.webhooks, objects.crds)
      ensures host != service && dnsName != "" && Calm(e) && None !in old(objects.crds) ==> r.Ok?
      ensures forall a :: old(Synced(a)) && x.validCert(a, old(writer.cluster.now)) && !e.faults.read && r.Ok? &&
                          B.Managed(old(objects.webhooks), old(objects.crds)) ==>
                r == Ok(false) && certs == Some(a) && writer.cluster == old(writer.cluster) &&
                objects.webhooks == old(objects.webhooks) && objects.crds == old(objects.crds)
    {
      certs, certChanged := None, false;
      if host && service {
        return Err("URL and Service can't be set at the same time"), None, false;
      }
      if e.getFails {
        return Err("get failed"), None, false;
      }
      var found := objects.FindCommon();
      if found.Err? {
        return Err(found.error), None, false;
      }
      if !host && !service {
        return Err("one of service and URL need to be set"), None, false;
      }
      var ensured, changed := writer.HandleCommon(x, dnsName, e.faults, e.racer);
      if ensured.Err? {
        return Err(ensured.error), None, false;
      }
      certs, certChanged := Some(ensured.value), changed;
      ghost var w, c := objects.webhooks, objects.crds;
      var ca := pem(ensured.value.ca);
      r := objects.Provision(found.value, ca, changed, e.updateFails);
      if r.Ok? {
        B.InstalledBundle(w, c, ca, [], objects.webhooks, objects.crds);
        forall b | B.Uniform(w, c, b) && B.Contains(b, ca) && B.Managed(w, c)
          ensures objects.webhooks == w && objects.crds == c && B.Contains(B.Common(w, c), ca)
        {
          NothingToDo(w, c, b, ca, objects.webhooks, objects.crds);
        }
      }
    }

    /** Two refreshes in a row, while the certificate stays good: the second reports no change and leaves
        the secret and the objects as the first did. */
    method RefreshTwice(x: C.Crypto, host: bool, service: bool, dnsName: string, e: Weather)
      returns (first: Result<bool>, second: Result<bool>, ghost certs: Option<C.Artifacts>)
      modifies objects, writer`cluster, writer.generator
      ensures first.Ok? ==> certs.Some?
      ensures first.Ok? && B.Managed(old(objects.webhooks), old(objects.crds)) &&
              x.validCert(certs.value, old(writer.cluster.now)) ==>
                second == Ok(false) && Synced(certs.value)
    {
      ghost var c1, c2, again;
      first, certs, c1 := RefreshCert(x, host, service, dnsName, e);
      second, again, c2 := RefreshCert(x, host, service, dnsName,
                                       Weather(false, C.Faults(false, false, false, false), None, None));
    }
  }
}
