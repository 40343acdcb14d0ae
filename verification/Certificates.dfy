/** Certificates in a shared secret: generation, the certificate writer, and several managers racing
    for the secret (internal/webhook/cert/generator/selfsigned.go, internal/webhook/cert/writer). */
module Certificates {
  import opened Collections

  /** A CA, and the artifacts of a serving certificate signed by it. Both carry a number of their own. */
  datatype CA = CA(id: nat)
  datatype Artifacts = Artifacts(ca: CA, serial: nat)

  /** The cryptography: whether artifacts are good for the DNS name at a time, whether a CA is good
      until a time, and how long a serving certificate is to be valid. */
  datatype Crypto = Crypto(validCert: (Artifacts, int) -> bool, validCA: (CA, int) -> bool, validity: int)

  /** The secret: absent, or present with or without data. */
  type Secret = Option<Option<Artifacts>>

  /** The cluster as the managers see it: the secret, the clock, the next unused number. */
  datatype Cluster = Cluster(secret: Secret, now: int, next: nat)

  // ---------- the generator ----------

  /** A stored CA is used again if it outlives the new certificate. */
  function Generated(x: Crypto, w: Cluster, ca: Option<CA>): Artifacts {
    if ca.Some? && x.validCA(ca.value, w.now + x.validity) then Artifacts(ca.value, w.next)
    else Artifacts(CA(w.next), w.next)
  }

  function Used(w: Cluster): Cluster {
    w.(next := w.next + 1)
  }

  class SelfSignedCertGenerator {
    var ca: Option<CA>

    constructor ()
      ensures ca.None?
    {
      ca := None;
    }

    method SetCA(newCA: CA)
      modifies this
      ensures ca == Some(newCA)
    {
      ca := Some(newCA);
    }

    /** The CA that signs is returned in the artifacts; the generator does not keep it. */
    method Generate(x: Crypto, w: Cluster) returns (certs: Artifacts, w': Cluster)
      ensures certs == Generated(x, w, ca) && w' == Used(w) && certs.serial == w.next < w'.next
      ensures ca.Some? && x.validCA(ca.value, w.now + x.validity) ==> certs.ca == ca.value
      ensures certs.ca.id == w.next || (ca == Some(certs.ca) && x.validCA(certs.ca, w.now + x.validity))
    {
      var valid := ca.Some? && x.validCA(ca.value, w.now + x.validity);
      var signing := CA(w.next);
      if valid {
        signing := ca.value;
      }
      return Artifacts(signing, w.next), Used(w);
    }
  }

  // ---------- the writer, alone ----------

  /** Which of the calls to the API server fail, for another reason than not found or already exists. */
  datatype Faults = Faults(read: bool, create: bool, reread: bool, update: bool)

  class SecretCertWriter {
    var generator: SelfSignedCertGenerator
    var cluster: Cluster

    constructor (w: Cluster)
      ensures fresh(generator) && generator.ca.None? && cluster == w
    {
      generator := new SelfSignedCertGenerator();
      cluster := w;
    }

    /** A failing read is not reported: it reads as a secret without data. */
    method Read(fault: bool) returns (found: bool, certs: Option<Artifacts>)
      modifies generator
      ensures found <==> fault || cluster.secret.Some?
      ensures certs == if fault || cluster.secret.None? then None else cluster.secret.value
      ensures generator.ca == if certs.Some? then Some(certs.value.ca) else old(generator.ca)
      ensures forall x, s, i: nat ::
                Enabled(s, Move.Read(i, fault)) && s.cluster == cluster && s.managers[i].ca == old(generator.ca) ==>
                var t := Next(x, s, Move.Read(i, fault)).managers[i];
                && t.ca == generator.ca
                && (found ==> t.stage == Checking(certs))
                && (!found ==> t.stage == if s.managers[i].stage.Reading? then Creating else Failed)
    {
      if !fault && cluster.secret.None? {
        return false, None;
      }
      certs := if fault then None else cluster.secret.value;
      if certs.Some? {
        generator.SetCA(certs.value.ca);
      }
      return true, certs;
    }

    /** Ok with the artifacts written, or Err with whether the secret exists already. */
    method Write(x: Crypto, fault: bool) returns (ok: bool, exists_: bool, certs: Artifacts)
      modifies this`cluster
      ensures certs == Generated(x, old(cluster), generator.ca)
      ensures ok <==> !fault && old(cluster).secret.None?
      ensures exists_ <==> !fault && old(cluster).secret.Some?
      ensures cluster == Used(old(cluster)).(secret := if ok then Some(Some(certs)) else old(cluster).secret)
      ensures forall s, i: nat ::
                Enabled(s, Create(i, fault)) && s.cluster == old(cluster) && s.managers[i].ca == generator.ca ==>
                var t := Next(x, s, Create(i, fault));
                && t.cluster == cluster && t.managers[i].ca == generator.ca
                && t.managers[i].stage == if ok then Checking(Some(certs)) else if exists_ then Rereading else Failed
    {
      var w: Cluster;
      certs, w := generator.Generate(x, cluster);
      ok, exists_ := !fault && w.secret.None?, !fault && w.secret.Some?;
      cluster := if ok then w.(secret := Some(Some(certs))) else w;
    }

    method Overwrite(x: Crypto, fault: bool) returns (ok: bool, certs: Artifacts)
      modifies this`cluster
      ensures certs == Generated(x, old(cluster), generator.ca)
      ensures ok <==> !fault && old(cluster).secret.Some?
      ensures cluster == Used(old(cluster)).(secret := if ok then Some(Some(certs)) else old(cluster).secret)
      ensures forall s, i: nat ::
                (&& Enabled(s, Move.Overwrite(i, fault))
                 && s.cluster == old(cluster) && s.managers[i].ca == generator.ca) ==>
                var t := Next(x, s, Move.Overwrite(i, fault));
                && t.cluster == cluster && t.managers[i].ca == generator.ca
                && t.managers[i].stage == if ok then Returned(certs) else Failed
    {
      var w: Cluster;
      certs, w := generator.Generate(x, cluster);
      ok := !fault && w.secret.Some?;
      cluster := if ok then w.(secret := Some(Some(certs))) else w;
    }

    /** racer: the artifacts with which another manager creates the secret after the first read. */
    method CreateIfNotExists(x: Crypto, f: Faults, racer: Option<Artifacts>)
      returns (r: Result<Option<Artifacts>>, changed: bool)
      modifies this`cluster, generator
      ensures cluster.now == old(cluster).now && generator == old(generator)
      ensures changed <==> !f.read && old(cluster).secret.None?
      ensures !changed ==> r.Ok? && cluster == old(cluster) && r.value == if f.read then None else cluster.secret.value
      ensures !changed ==> generator.ca == if r.value.Some? then Some(r.value.value.ca) else old(generator.ca)
      ensures changed ==> (r.Ok? <==> !f.create)
      ensures changed && racer.None? && r.Ok? ==> r.value.Some? && cluster.secret == Some(r.value)
      ensures changed && racer.None? && r.Err? ==> cluster.secret.None?
      ensures changed && racer.Some? ==> cluster.secret == Some(racer)
      ensures changed && racer.Some? && r.Ok? ==> r.value == if f.reread then None else racer
    {
      var found, certs := Read(f.read);
      if !found {
        if racer.Some? {
          cluster := cluster.(secret := Some(racer));
        }
        var ok, exists_, written := Write(x, f.create);
        if exists_ {
          found, certs := Read(f.reread);
          return if found then Ok(certs) else Err("not found"), true;
        }
        return if ok then Ok(Some(written)) else Err("create failed"), true;
      }
      return Ok(certs), false;
    }

    /** What is returned is what the secret holds in the end, also when another manager creates it
        first; nothing changes exactly when a valid certificate could be read; the CA of a certificate that
        was read and is invalid now survives exactly when it outlives the new certificate. */
    method HandleCommon(x: Crypto, dnsName: string, f: Faults, racer: Option<Artifacts>)
      returns (r: Result<Artifacts>, changed: bool)
      modifies this`cluster, generator
      ensures cluster.now == old(cluster).now
      ensures dnsName == "" ==> r.Err? && cluster == old(cluster)
      ensures r.Err? && old(cluster).secret.Some? ==> cluster.secret == old(cluster).secret
      ensures r.Ok? ==> cluster.secret == Some(Some(r.value))
      ensures r.Ok? && !changed ==> cluster == old(cluster) && x.validCert(r.value, cluster.now) && !f.read
      ensures r.Ok? && changed && !f.read && old(cluster).secret.Some? && old(cluster).secret.value.Some? ==>
                var was := old(cluster).secret.value.value;
                && !x.validCert(was, old(cluster).now)
                && r.value.ca == if x.validCA(was.ca, old(cluster).now + x.validity) then was.ca
                                 else CA(old(cluster).next)
      ensures r.Ok? && !f.read && old(cluster).secret.None? && racer.Some? &&
              x.validCert(racer.value, old(cluster).now) && !f.reread ==>
                r.value == racer.value
      ensures dnsName != "" && !f.read && !f.create && !f.update ==> r.Ok?
      ensures dnsName != "" && !f.read && old(cluster).secret.Some? && old(cluster).secret.value.Some? &&
              x.validCert(old(cluster).secret.value.value, old(cluster).now) ==>
                r == Ok(old(cluster).secret.value.value) && !changed
    {
      if dnsName == "" {
        return Err("dnsName should not be empty"), false;
      }
      var created: Result<Option<Artifacts>>;
      created, changed := CreateIfNotExists(x, f, racer);
      if created.Err? {
        return Err(created.error), changed;
      }
      if created.value.None? || !x.validCert(created.value.value, cluster.now) {
        var ok, certs := Overwrite(x, f.update);
        if !ok {
          return Err("update failed"), false;
        }
        return Ok(certs), true;
      }
      return Ok(created.value.value), changed;
    }
  }

  // ---------- any number of managers ----------

  /** Where a manager stands: about to read, to create, to read again, to check what it holds, to
      overwrite; returned; failed. */
  datatype Stage = Reading | Creating | Rereading | Checking(certs: Option<Artifacts>) | Overwriting
                 | Returned(result: Artifacts) | Failed

  datatype Manager = Manager(stage: Stage, ca: Option<CA>)

  /** creates counts the creations of the secret that succeeded; issued holds every certificate generated. */
  datatype State = State(cluster: Cluster, managers: seq<Manager>, creates: nat, issued: set<Artifacts>)

  datatype Move = Join | Again(i: nat) | Tick(d: nat) | Read(i: nat, fault: bool) | Create(i: nat, fault: bool)
                | Check(i: nat) | Overwrite(i: nat, fault: bool)

  predicate Enabled(s: State, m: Move) {
    match m
    case Join => true
    case Tick(_) => true
    case Again(i) => i < |s.managers| && (s.managers[i].stage.Returned? || s.managers[i].stage.Failed?)
    case Read(i, _) => i < |s.managers| && (s.managers[i].stage.Reading? || s.managers[i].stage.Rereading?)
    case Create(i, _) => i < |s.managers| && s.managers[i].stage.Creating?
    case Check(i) => i < |s.managers| && s.managers[i].stage.Checking?
    case Overwrite(i, _) => i < |s.managers| && s.managers[i].stage.Overwriting?
  }

  function Set(s: State, i: nat, stage: Stage): State
    requires i < |s.managers|
  {
    s.(managers := s.managers[i := s.managers[i].(stage := stage)])
  }

  function Next(x: Crypto, s: State, m: Move): State
    requires Enabled(s, m)
  {
    match m
    case Join => s.(managers := s.managers + [Manager(Reading, None)])
    case Tick(d) => s.(cluster := s.cluster.(now := s.cluster.now + d))
    case Again(i) => Set(s, i, Reading)
    case Read(i, fault) =>
      var secret := s.cluster.secret;
      if fault then Set(s, i, Checking(None))
      else if secret.None? then Set(s, i, if s.managers[i].stage.Reading? then Creating else Failed)
      else if secret.value.None? then Set(s, i, Checking(None))
      else s.(managers := s.managers[i := Manager(Checking(secret.value), Some(secret.value.value.ca))])
    case Create(i, fault) =>
      var certs := Generated(x, s.cluster, s.managers[i].ca);
      var t := s.(cluster := Used(s.cluster), issued := s.issued + {certs});
      if fault then Set(t, i, Failed)
      else if s.cluster.secret.Some? then Set(t, i, Rereading)
      else Set(t, i, Checking(Some(certs))).(cluster := t.cluster.(secret := Some(Some(certs))),
          creates := s.creates + 1)
    case Check(i) =>
      var st := s.managers[i].stage;
      Set(s, i, if st.certs.Some? && x.validCert(st.certs.value, s.cluster.now) then Returned(st.certs.value)
                else Overwriting)
    case Overwrite(i, fault) =>
      var certs := Generated(x, s.cluster, s.managers[i].ca);
      var t := s.(cluster := Used(s.cluster), issued := s.issued + {certs});
      if fault || s.cluster.secret.None? then Set(t, i, Failed)
      else Set(t, i, Returned(certs)).(cluster := t.cluster.(secret := Some(Some(certs))))
  }

  ghost predicate Run(x: Crypto, run: seq<State>, moves: seq<Move>) {
    && |run| == |moves| + 1
    && run[0].cluster.secret.None? && run[0].managers == [] && run[0].creates == 0 && run[0].issued == {}
    && forall k :: 0 <= k < |moves| ==> Enabled(run[k], moves[k]) && run[k + 1] == Next(x, run[k], moves[k])
  }

  /** No read fails for another reason than that the secret is absent. */
  ghost predicate NoReadFaults(moves: seq<Move>) {
    forall k :: 0 <= k < |moves| && moves[k].Read? ==> !moves[k].fault
  }

  // ---------- the race for an absent secret ----------

  /** The certificates that were generated are good for as long as the run lasts. */
  ghost predicate Lasting(x: Crypto, run: seq<State>) {
    forall k, a :: 0 <= k < |run| && a in run[k].issued ==> x.validCert(a, run[k].cluster.now)
  }

  /** The secret was created as often as it exists; whatever a manager holds is what the secret holds. */
  ghost predicate Settled(s: State) {
    && (s.cluster.secret.None? <==> s.creates == 0) && s.creates <= 1
    && (s.cluster.secret.Some? ==> s.cluster.secret.value.Some? && s.cluster.secret.value.value in s.issued)
    && forall i :: 0 <= i < |s.managers| ==>
         var st := s.managers[i].stage;
         && !st.Overwriting?
         && (st.Checking? ==> st.certs.Some? && s.cluster.secret == Some(st.certs))
         && (st.Returned? ==> s.cluster.secret == Some(Some(st.result)))
         && (st.Rereading? ==> s.cluster.secret.Some?)
  }

  lemma SettledKept(x: Crypto, s: State, m: Move)
    requires Settled(s) && Enabled(s, m) && !(m.Read? && m.fault)
    requires forall a :: a in s.issued ==> x.validCert(a, s.cluster.now)
    ensures Settled(Next(x, s, m))
  {
  }

  lemma {:induction false} RunSettled(x: Crypto, run: seq<State>, moves: seq<Move>, k: nat)
    requires Run(x, run, moves) && NoReadFaults(moves) && Lasting(x, run) && k < |run|
    ensures Settled(run[k])
    decreases k
  {
    if k > 0 {
      RunSettled(x, run, moves, k - 1);
      SettledKept(x, run[k - 1], moves[k - 1]);
    }
  }

  /** Whatever the interleaving, at most one creation succeeds, and once a manager has returned exactly
      one has; every manager that returned, at whatever time, returned what the secret holds. */
  lemma OneCreation(x: Crypto, run: seq<State>, moves: seq<Move>, k: nat, i: nat)
    requires Run(x, run, moves) && NoReadFaults(moves) && Lasting(x, run) && k < |run|
    ensures run[k].creates <= 1
    ensures i < |run[k].managers| && run[k].managers[i].stage.Returned? ==>
              run[k].creates == 1 && run[k].cluster.secret == Some(Some(run[k].managers[i].stage.result))
  {
    RunSettled(x, run, moves, k);
  }

  /** A manager returns what it holds exactly when it holds a certificate that is good at that time, and
      otherwise goes on to overwrite; what it returns after overwriting is what it has just stored. */
  lemma ReturnsGood(x: Crypto, s: State, m: Move, i: nat)
    requires Enabled(s, m) && i < |s.managers| && !s.managers[i].stage.Returned?
    ensures m == Check(i) ==>
              && (Next(x, s, m).managers[i].stage.Returned? <==>
                    && s.managers[i].stage.certs.Some?
                    && x.validCert(s.managers[i].stage.certs.value, s.cluster.now))
              && (!Next(x, s, m).managers[i].stage.Returned? ==> Next(x, s, m).managers[i].stage.Overwriting?)
    ensures Next(x, s, m).managers[i].stage.Returned? ==>
              var r := Next(x, s, m).managers[i].stage.result;
              || (m == Check(i) && s.managers[i].stage.certs == Some(r) && x.validCert(r, s.cluster.now))
              || (&& m == Overwrite(i, false) && r.serial == s.cluster.next
                  && Next(x, s, m).cluster.secret == Some(Some(r)))
  {
  }

  // ---------- the CA over later renewals ----------

  /** The secret holds artifacts whose CA was generated before. */
  ghost predicate Stored(s: State) {
    s.cluster.secret.Some? && s.cluster.secret.value.Some? && s.cluster.secret.value.value.ca.id < s.cluster.next
  }

  ghost function StoredCA(s: State): CA
    requires Stored(s)
  {
    s.cluster.secret.value.value.ca
  }

  /** Overwriting leaves the stored CA as it is exactly when the generator holds it and it outlives the
      new certificate. */
  lemma OverwriteKeepsCA(x: Crypto, s: State, i: nat)
    requires Enabled(s, Overwrite(i, false)) && Stored(s)
    ensures var ca := s.cluster.secret.value.value.ca;
            var t := Next(x, s, Overwrite(i, false));
            && t.cluster.secret.Some? && t.cluster.secret.value.Some?
            && (t.cluster.secret.value.value.ca == ca <==>
                  s.managers[i].ca == Some(ca) && x.validCA(ca, s.cluster.now + x.validity))
  {
    var ca := s.cluster.secret.value.value.ca;
    var certs := Generated(x, s.cluster, s.managers[i].ca);
    if certs.ca == ca {
      assert certs.ca.id != s.cluster.next;
    }
  }

  predicate Acts(m: Move, i: nat) {
    !m.Join? && !m.Tick? && m.i == i
  }

  /** Manager i has read the secret by state n, in whatever pass. */
  ghost predicate HasRead(run: seq<State>, moves: seq<Move>, n: nat, i: nat) {
    exists m: nat :: ReadsAt(run, moves, m, i) && m < n
  }

  ghost predicate ReadsAt(run: seq<State>, moves: seq<Move>, m: nat, i: nat) {
    m < |moves| && m < |run| && moves[m] == Read(i, false) && run[m].cluster.secret.Some?
  }

  ghost predicate Knows(s: State, i: nat) {
    i < |s.managers| && s.managers[i].ca.Some?
  }

  lemma {:induction false} SecretStays(x: Crypto, run: seq<State>, moves: seq<Move>, n: nat)
    requires Run(x, run, moves) && n < |run|
    ensures run[n].cluster.secret.Some? ==> Stored(run[n])
    ensures n > 0 && run[n - 1].cluster.secret.Some? ==> run[n].cluster.secret.Some?
    ensures forall i :: 0 <= i < |run[n].managers| && run[n].managers[i].ca.Some? ==>
            run[n].managers[i].ca.value.id < run[n].cluster.next
    decreases n
  {
    if n > 0 {
      SecretStays(x, run, moves, n - 1);
      var s, m := run[n - 1], moves[n - 1];
      assert run[n] == Next(x, s, m);
    }
  }

  /** A generator holds a CA exactly when its manager has read the secret. */
  lemma {:induction false} KnowsIffRead(x: Crypto, run: seq<State>, moves: seq<Move>, n: nat, i: nat)
    requires Run(x, run, moves) && n < |run|
    ensures Knows(run[n], i) <==> HasRead(run, moves, n, i)
    decreases n
  {
    if n > 0 {
      var s, m := run[n - 1], moves[n - 1];
      KnowsIffRead(x, run, moves, n - 1, i);
      SecretStays(x, run, moves, n - 1);
      assert run[n] == Next(x, s, m);
      if ReadsAt(run, moves, n - 1, i) {
        assert Knows(run[n], i);
      } else {
        assert Knows(run[n], i) <==> Knows(s, i);
        if k: nat :| ReadsAt(run, moves, k, i) && k < n {
          assert k < n - 1;
        }
      }
    }
  }

  /** The secret appears at state c. */
  ghost predicate Appears(run: seq<State>, c: nat) {
    0 < c < |run| && run[c - 1].cluster.secret.None? && run[c].cluster.secret.Some?
  }

  /** From c to k the secret holds this CA. */
  ghost predicate Keeps(run: seq<State>, c: nat, k: nat, ca: CA) {
    k < |run| && forall n :: c <= n <= k ==> Stored(run[n]) && StoredCA(run[n]) == ca
  }

  lemma {:induction false} AbsentBefore(x: Crypto, run: seq<State>, moves: seq<Move>, c: nat, n: nat)
    requires Run(x, run, moves) && Appears(run, c) && n < c
    ensures run[n].cluster.secret.None?
    decreases c - n
  {
    if n < c - 1 {
      AbsentBefore(x, run, moves, c, n + 1);
      SecretStays(x, run, moves, n + 1);
    }
  }

  /** While the secret keeps its CA, no generator holds another one. */
  lemma {:induction false} KnownIsStored(x: Crypto, run: seq<State>, moves: seq<Move>, c: nat, n: nat, ca: CA, i: nat)
    requires Run(x, run, moves) && Appears(run, c) && c <= n && Keeps(run, c, n, ca) && Knows(run[n], i)
    ensures run[n].managers[i].ca == Some(ca)
    decreases n
  {
    var s, m := run[n - 1], moves[n - 1];
    assert run[n] == Next(x, s, m);
    if n == c {
      KnowsIffRead(x, run, moves, n, i);
      var k: nat :| ReadsAt(run, moves, k, i) && k < n;
      AbsentBefore(x, run, moves, c, k);
    } else if !ReadsAt(run, moves, n - 1, i) {
      SecretStays(x, run, moves, n - 1);
      assert Knows(s, i) && s.managers[i].ca == run[n].managers[i].ca;
      KnownIsStored(x, run, moves, c, n - 1, ca, i);
    }
  }

  /** Move n, if it overwrites the secret, is by a manager that has read it, and the CA outlives the new
      certificate. */
  ghost predicate OverwrittenWell(x: Crypto, run: seq<State>, moves: seq<Move>, n: nat, ca: CA)
    requires n < |moves| && n < |run|
  {
    moves[n].Overwrite? && !moves[n].fault ==>
      HasRead(run, moves, n, moves[n].i) && x.validCA(ca, run[n].cluster.now + x.validity)
  }

  lemma MoveKeepsCA(x: Crypto, run: seq<State>, moves: seq<Move>, c: nat, n: nat, ca: CA)
    requires Run(x, run, moves) && Appears(run, c) && c <= n < |moves| && Keeps(run, c, n, ca)
    ensures Stored(run[n + 1])
    ensures StoredCA(run[n + 1]) == ca <==> OverwrittenWell(x, run, moves, n, ca)
  {
    SecretStays(x, run, moves, n + 1);
    var s, m := run[n], moves[n];
    assert run[n + 1] == Next(x, s, m);
    if m.Overwrite? && !m.fault {
      OverwriteKeepsCA(x, s, m.i);
      KnowsIffRead(x, run, moves, n, m.i);
      if Knows(s, m.i) {
        KnownIsStored(x, run, moves, c, n, ca, m.i);
      }
    }
  }

  /** Over any interleaving of any number of managers, the CA that was first stored is the one stored at
      every later state up to k, exactly when every overwrite up to then is made by a manager that has
      read the secret, in that pass or an earlier one, while the CA outlives the new certificate. */
  lemma {:induction false} CAUnchangedIff(x: Crypto, run: seq<State>, moves: seq<Move>, c: nat, k: nat)
    requires Run(x, run, moves) && Appears(run, c) && c <= k < |run|
    ensures Stored(run[c])
    ensures Keeps(run, c, k, StoredCA(run[c])) <==>
            forall n :: c <= n < k ==> OverwrittenWell(x, run, moves, n, StoredCA(run[c]))
    decreases k
  {
    SecretStays(x, run, moves, c);
    var ca := StoredCA(run[c]);
    if k > c {
      CAUnchangedIff(x, run, moves, c, k - 1);
      if Keeps(run, c, k - 1, ca) {
        MoveKeepsCA(x, run, moves, c, k - 1, ca);
      }
    }
  }

  // ---------- who overwrites ----------

  /** Manager i created the secret with move m and has not moved since. */
  ghost predicate CreatedSince(run: seq<State>, moves: seq<Move>, m: nat, n: nat, i: nat) {
    && m < n < |run| && n <= |moves|
    && moves[m] == Create(i, false) && run[m].cluster.secret.None?
    && forall l :: m < l < n ==> !Acts(moves[l], i)
  }

  /** The certificate with which a manager created the secret is good when the manager checks it. */
  ghost predicate OwnChecksPass(x: Crypto, run: seq<State>, moves: seq<Move>) {
    forall m: nat, n: nat, i: nat :: CreatedSince(run, moves, m, n, i) && n < |moves| && moves[n] == Check(i) ==>
      Stored(run[m + 1]) && x.validCert(run[m + 1].cluster.secret.value.value, run[n].cluster.now)
  }

  ghost predicate HoldsCreated(run: seq<State>, moves: seq<Move>, n: nat, i: nat, certs: Option<Artifacts>) {
    exists m: nat :: CreatedSince(run, moves, m, n, i) && run[m + 1].cluster.secret == Some(certs)
  }

  lemma {:induction false} OverwritersHaveRead(x: Crypto, run: seq<State>, moves: seq<Move>, n: nat, i: nat)
    requires Run(x, run, moves) && NoReadFaults(moves) && OwnChecksPass(x, run, moves)
    requires n < |run| && i < |run[n].managers|
    ensures run[n].managers[i].stage.Checking? ==>
              HasRead(run, moves, n, i) || HoldsCreated(run, moves, n, i, run[n].managers[i].stage.certs)
    ensures run[n].managers[i].stage.Overwriting? ==> HasRead(run, moves, n, i)
    decreases n
  {
    if n > 0 {
      var s, m := run[n - 1], moves[n - 1];
      assert run[n] == Next(x, s, m);
      if i < |s.managers| {
        OverwritersHaveRead(x, run, moves, n - 1, i);
        StillRead(run, moves, n - 1, i);
        if Acts(m, i) {
          ActsWell(x, run, moves, n, i);
        } else if s.managers[i].stage.Checking? && HoldsCreated(run, moves, n - 1, i, s.managers[i].stage.certs) {
          var l: nat :| CreatedSince(run, moves, l, n - 1, i) &&
              run[l + 1].cluster.secret == Some(s.managers[i].stage.certs);
          assert CreatedSince(run, moves, l, n, i);
        }
      }
    }
  }

  lemma StillRead(run: seq<State>, moves: seq<Move>, n: nat, i: nat)
    ensures HasRead(run, moves, n, i) ==> HasRead(run, moves, n + 1, i)
  {
  }

  lemma ActsWell(x: Crypto, run: seq<State>, moves: seq<Move>, n: nat, i: nat)
    requires Run(x, run, moves) && NoReadFaults(moves) && OwnChecksPass(x, run, moves)
    requires 0 < n < |run| && i < |run[n - 1].managers| && Acts(moves[n - 1], i)
    requires run[n - 1].managers[i].stage.Checking? ==>
               HasRead(run, moves, n - 1, i) || HoldsCreated(run, moves, n - 1, i, run[n - 1].managers[i].stage.certs)
    ensures i < |run[n].managers|
    ensures run[n].managers[i].stage.Checking? ==>
              HasRead(run, moves, n, i) || HoldsCreated(run, moves, n, i, run[n].managers[i].stage.certs)
    ensures run[n].managers[i].stage.Overwriting? ==> HasRead(run, moves, n, i)
  {
    var s, m := run[n - 1], moves[n - 1];
    assert run[n] == Next(x, s, m);
    StillRead(run, moves, n - 1, i);
    if m.Read? && s.cluster.secret.Some? {
      assert ReadsAt(run, moves, n - 1, i);
    } else if m == Create(i, false) && s.cluster.secret.None? {
      assert CreatedSince(run, moves, n - 1, n, i);
    } else if m.Check? && !HasRead(run, moves, n - 1, i) {
      var l: nat :| CreatedSince(run, moves, l, n - 1, i) &&
          run[l + 1].cluster.secret == Some(s.managers[i].stage.certs);
    }
  }

  /** If no read fails but for an absent secret, the certificate of whoever creates the secret is good
      when it is checked, and the CA that was first stored outlives every certificate that later replaces
      the stored one, then that CA is stored in every later state. */
  lemma CAUnchanged(x: Crypto, run: seq<State>, moves: seq<Move>, c: nat, k: nat)
    requires Run(x, run, moves) && NoReadFaults(moves) && OwnChecksPass(x, run, moves)
    requires Appears(run, c) && c <= k < |run| && Stored(run[c])
    requires forall n :: c <= n < k && moves[n].Overwrite? && !moves[n].fault ==>
               x.validCA(StoredCA(run[c]), run[n].cluster.now + x.validity)
    ensures Stored(run[k]) && StoredCA(run[k]) == StoredCA(run[c])
  {
    forall n | c <= n < k ensures OverwrittenWell(x, run, moves, n, StoredCA(run[c])) {
      if moves[n].Overwrite? {
        OverwritersHaveRead(x, run, moves, n, moves[n].i);
      }
    }
    CAUnchangedIff(x, run, moves, c, k);
  }

  /** A single failed read makes a manager replace a valid certificate and its CA. */
  lemma FailedReadWitness(x: Crypto, w: Cluster, a: Artifacts)
    requires w.secret == Some(Some(a)) && a.ca.id < w.next && x.validCert(a, w.now)
    ensures var s := State(w, [Manager(Reading, None)], 1, {a});
            var s1 := Next(x, s, Read(0, true));
            var s2 := Next(x, s1, Check(0));
            Next(x, s2, Overwrite(0, false)).cluster.secret == Some(Some(Artifacts(CA(w.next), w.next)))
  {
  }
}
