/** Certificates as the program sees them: the validity window and the names, and what it accepts. */
module Certificates {
  import opened Options
  import opened Sites
  import opened Secrets
  import opened DomainLists

  /** Time in nanoseconds. */
  const SECOND := 1_000_000_000
  const HOUR := 3600 * SECOND
  const VALIDITY := 8760 * HOUR
  const MARGIN := 12 * HOUR

  datatype Certificate = Certificate(notBefore: nat, notAfter: nat, names: seq<string>)

  /** X.509 keeps whole seconds. */
  function WholeSeconds(t: nat): nat {
    t / SECOND * SECOND
  }

  /** Creating a certificate with a private key may fail; `parse` decodes the PEM block and the certificate. */
  datatype X509 = X509(create: (Certificate, Bytes) -> Option<Bytes>, parse: Bytes -> Option<Certificate>)
  {
    ghost predicate Sound() {
      forall c: Certificate, key: Bytes | create(c, key).Some? ::
        && |create(c, key).value| >= 1
        && parse(create(c, key).value) ==
           Some(Certificate(WholeSeconds(c.notBefore), WholeSeconds(c.notAfter), c.names))
    }
  }

  datatype Verdict = Fine | Expiring | NotYetValid | OtherNames

  function NamesOf(site: Site): seq<string> {
    [site.domain] + site.aliases
  }

  predicate NamesMatter(site: Site) {
    site.tls.Some? && (site.tls.value.kind.Acme? || site.tls.value.kind.SelfSigned?)
  }

  function InspectCertificate(site: Site, cert: Certificate, now: nat): Verdict
    requires site.tls.Some?
  {
    if cert.notAfter < now + MARGIN then Expiring
    else if !(cert.notBefore < now) then NotYetValid
    else if NamesMatter(site) && Sort(NamesOf(site)) != Sort(cert.names) then OtherNames
    else Fine
  }

  /** A certificate is accepted if and only if it has been valid for a while, stays valid for twelve hours, and,
  when it was issued here, is for the site's names: all of them, as often as they are listed, in any order. */
  lemma InspectAccepts(site: Site, cert: Certificate, now: nat)
    requires site.tls.Some?
    ensures InspectCertificate(site, cert, now) == Fine <==>
            && cert.notBefore < now
            && now + MARGIN <= cert.notAfter
            && (site.tls.value.kind.Acme? || site.tls.value.kind.SelfSigned? ==>
                  multiset([site.domain] + site.aliases) == multiset(cert.names))
  {
    SameSortedIffPermutation(NamesOf(site), cert.names);
  }

  /** What the certificate job issues for a text at a time. */
  function Issued(data: string, at: nat): Certificate {
    Certificate(WholeSeconds(at), WholeSeconds(at) + VALIDITY, Split(data))
  }

  lemma SameNamesIffCommaFree(names: seq<string>)
    requires names != []
    ensures multiset(names) == multiset(Split(Join(names))) <==> CommaFree(names)
  {
    SplitJoin(names);
    if multiset(names) == multiset(Split(Join(names))) {
      SplitIsCommaFree(Join(names));
      forall i | 0 <= i < |names|
        ensures ',' !in names[i]
      {
        assert names[i] in multiset(Split(Join(names)));
      }
    }
  }

  /** What a site's own job issues is accepted three seconds later, and up to 8748 hours later, if and only if no
  name of the site has a comma in it. */
  lemma FreshCertificateAccepted(site: Site, at: nat, now: nat)
    requires NamesMatter(site) && at + 3 * SECOND <= now
    ensures InspectCertificate(site, Issued(Join(NamesOf(site)), at), now) == Fine <==>
            CommaFree(NamesOf(site)) && now <= WholeSeconds(at) + VALIDITY - MARGIN
  {
    InspectAccepts(site, Issued(Join(NamesOf(site)), at), now);
    SameNamesIffCommaFree(NamesOf(site));
  }
}

/** Jobs that issue certificates, and the loop that asks for a self-signed one. */
module SelfSigned {
  import opened Options
  import opened Sites
  import opened Secrets
  import opened DomainLists
  import opened Certificates
  import SecretStore

  datatype Job = Job(kind: string, data: string)

  const TLS_CERTIFICATE := "tlscert"
  const ACME := "acme"

  /** Jobs for certificates have an identifier that depends on the data alone. */
  function CreateJobID(job: Job, digest: string -> string, random: string): string {
    job.kind + "/" + if job.kind == TLS_CERTIFICATE || job.kind == ACME then digest(job.data) else random
  }

  /** Two requests share a job exactly when they look their certificate up under the same key. */
  lemma JobsSharedIffKeysShared(a: seq<string>, b: seq<string>, digest: string -> string, r1: string, r2: string)
    ensures CreateJobID(Job(TLS_CERTIFICATE, Join(a)), digest, r1) ==
            CreateJobID(Job(TLS_CERTIFICATE, Join(b)), digest, r2) <==>
            SecretKey(TlsType.SelfSigned, a, digest) == SecretKey(TlsType.SelfSigned, b, digest)
    ensures CreateJobID(Job(TLS_CERTIFICATE, Join(a)), digest, r1) != CreateJobID(Job(ACME, Join(b)), digest, r2)
    ensures CreateJobID(Job(ACME, Join(a)), digest, r1) == CreateJobID(Job(ACME, Join(b)), digest, r2) <==>
            SecretKey(TlsType.Acme, a, digest) == SecretKey(TlsType.Acme, b, digest)
  {
    SecretKeysDiffer(TlsType.Acme, a, TlsType.Acme, b, digest);
    assert CreateJobID(Job(ACME, Join(a)), digest, r1)[5..] == digest(Join(a));
    assert CreateJobID(Job(ACME, Join(b)), digest, r2)[5..] == digest(Join(b));
    SecretKeysDiffer(TlsType.SelfSigned, a, TlsType.SelfSigned, b, digest);
    var ja, jb := CreateJobID(Job(TLS_CERTIFICATE, Join(a)), digest, r1),
                  CreateJobID(Job(TLS_CERTIFICATE, Join(b)), digest, r2);
    assert ja[8..] == digest(Join(a)) && jb[8..] == digest(Join(b));
    assert ja[0] == 't' && CreateJobID(Job(ACME, Join(b)), digest, r2)[0] == 'a';
  }

  /** Jobs of any other kind are never shared, even with the same data. */
  lemma OtherJobsNotShared(job: Job, other: Job, digest: string -> string, r1: string, r2: string)
    requires job.kind == other.kind && job.kind != TLS_CERTIFICATE && job.kind != ACME
    ensures CreateJobID(job, digest, r1) == CreateJobID(other, digest, r2) <==> r1 == r2
  {
    assert CreateJobID(job, digest, r1)[|job.kind| + 1..] == r1;
    assert CreateJobID(other, digest, r2)[|job.kind| + 1..] == r2;
  }

  /** The job stores under the key that the requester looks up, whatever the names are. */
  lemma JobStoresWhereLookedUp(kind: TlsType, names: seq<string>, digest: string -> string)
    requires kind.SelfSigned? || kind.Acme?
    ensures SecretKey(kind, Split(Join(names)), digest) == SecretKey(kind, names, digest)
  {
    JoinSplit(Join(names));
  }

  /** A job's result is taken to be seen within the validity of what it issued. */
  const MAX_LAG := VALIDITY - MARGIN - SECOND

  datatype Result = Done(key: Bytes, cert: Bytes) | Failed | Crashed | StillTrying

  class Node {
    const manager: SecretStore.Manager
    const x509: X509
    var now: nat
    ghost var asked: seq<Job> // the jobs that were asked for so far
    ghost var unanswered: nat // how many of these requests failed
    ghost var notIssued: nat // how often a key could not be generated, or ACME issued nothing

    constructor (manager: SecretStore.Manager, x509: X509, now: nat)
      ensures this.manager == manager && this.x509 == x509 && this.now == now
    {
      this.manager, this.x509, this.now := manager, x509, now;
    }

    ghost predicate Sound()
    {
      x509.Sound() && manager.cipher.Some? && manager.cipher.value.Sound()
    }

    ghost function Found(key: string): Answer
      reads manager
    {
      SecretStore.CertificateIn(manager.state, manager.cipher, key)
    }

    /** A private key of any size, or an error. */
    method GenerateKey() returns (key: Option<Bytes>)
      modifies this`notIssued
      ensures key.Some? ==> |key.value| >= 1
      ensures notIssued == old(notIssued) + if key.Some? then 0 else 1
    {
      var generated: bool := *;
      if !generated {
        notIssued := notIssued + 1;
        return None;
      }
      var some: Bytes := [0];
      assert |some| >= 1;
      var k: Bytes :| |k| >= 1;
      key := Some(k);
    }

    method GenerateTLSCert(names: seq<string>, at: nat) returns (ok: bool, key: Bytes, cert: Bytes)
      requires x509.Sound()
      modifies this`notIssued
      ensures notIssued >= old(notIssued)
      ensures ok <==> names != [] && notIssued == old(notIssued) &&
                      x509.create(Certificate(at, at + VALIDITY, names), key).Some?
      ensures ok ==> names != [] && |key| >= 1 && |cert| >= 1
      ensures ok ==> x509.parse(cert) == Some(Certificate(WholeSeconds(at), WholeSeconds(at) + VALIDITY, names))
    {
      key, cert := [], [];
      if |names| < 1 {
        return false, key, cert;
      }
      var generated := GenerateKey();
      if generated.None? {
        return false, key, cert;
      }
      key := generated.value;
      var created := x509.create(Certificate(at, at + VALIDITY, names), key);
      if created.None? {
        return false, key, cert;
      }
      ok, cert := true, created.value;
    }

    /** Issuing through ACME is somebody else's work. */
    method GenerateACMECertificate(names: seq<string>) returns (ok: bool, key: Bytes, cert: Bytes)
      modifies this`notIssued
      ensures notIssued == old(notIssued) + if ok then 0 else 1
    {
      ok, key, cert := *, *, *;
      if !ok {
        notIssued := notIssued + 1;
      }
    }

    method ProcessJob(job: Job, at: nat, nonce: Option<Bytes>) returns (ok: bool, key: Bytes, cert: Bytes)
      requires x509.Sound()
      requires nonce.Some? ==> |nonce.value| == NONCE_SIZE
      modifies manager`state, manager`stored, manager`failures, this`notIssued
      ensures manager.failures >= old(manager.failures) && notIssued >= old(notIssued)
      ensures ok <==>
              && (job.kind == TLS_CERTIFICATE || job.kind == ACME)
              && notIssued == old(notIssued) && manager.failures == old(manager.failures)
              && manager.cipher.Some? && nonce.Some? && old(manager.state).Some?
              && |key| <= MAX_PART && |cert| <= MAX_PART
              && (job.kind == TLS_CERTIFICATE ==>
                    x509.create(Certificate(at, at + VALIDITY, Split(job.data)), key).Some?)
      ensures ok ==> manager.stored == manager.state
      ensures ok && job.kind == TLS_CERTIFICATE ==>
                && |key| >= 1 && |cert| >= 1 && x509.parse(cert) == Some(Issued(job.data, at))
      ensures ok ==> manager.cipher.Some? && nonce.Some? && old(manager.state).Some? &&
                     |key| <= MAX_PART && |cert| <= MAX_PART
      ensures ok ==>
                var kind := if job.kind == ACME then TlsType.Acme else TlsType.SelfSigned;
                var stored := old(manager.state).value[SecretKey(kind, Split(job.data), manager.digest) :=
                  Sealed(manager.cipher.value, nonce.value, Encode(key, cert))];
                manager.state == Some(
                  if job.kind == ACME
                  then stored - {SecretKey(TlsType.SelfSigned, Split(job.data), manager.digest)}
                  else stored)
      ensures forall k | k != SecretKey(TlsType.SelfSigned, Split(job.data), manager.digest) &&
                         k != SecretKey(TlsType.Acme, Split(job.data), manager.digest) ::
                Found(k) == old(Found(k))
    {
      ok, key, cert := false, [], [];
      var names := Split(job.data);
      var kind: TlsType;
      if job.kind == TLS_CERTIFICATE {
        kind := TlsType.SelfSigned;
        ok, key, cert := GenerateTLSCert(names, at);
      } else if job.kind == ACME {
        kind := TlsType.Acme;
        ok, key, cert := GenerateACMECertificate(names);
      } else {
        return;
      }
      if !ok {
        return;
      }
      var outcome := manager.SetCertificate(kind, names, key, cert, nonce);
      if !outcome.Done? {
        return false, key, cert;
      }
      if kind.Acme? {
        outcome := manager.RemoveCertificate(TlsType.SelfSigned, names);
        if !outcome.Done? {
          return false, key, cert;
        }
      }
    }

    /** The pair that is found for the names has what a job issues for them at the given time. */
    ghost predicate Holds(names: seq<string>, at: nat)
      reads manager
    {
      var found := Found(SecretKey(TlsType.SelfSigned, names, manager.digest));
      found.Pair? && x509.parse(found.cert) == Some(Issued(Join(names), at))
    }

    /** And that was between three seconds and almost a year ago. */
    ghost predicate Delivered(names: seq<string>, at: nat)
      reads manager, this
    {
      Holds(names, at) && at + 3 * SECOND <= now <= at + MAX_LAG
    }

    /** The job, done by whoever is the leader and by its own clock. */
    method LeaderDoesJob(job: Job, ghost names: seq<string>, start: nat) returns (ok: bool)
      requires Sound() && job == Job(TLS_CERTIFICATE, Join(names))
      modifies manager`state, manager`stored, manager`failures, this`notIssued
      ensures ok ==> Holds(names, start)
    {
      var zeros: Bytes := seq(NONCE_SIZE, _ => 0);
      assert |zeros| == NONCE_SIZE;
      var nonce: Bytes :| |nonce| == NONCE_SIZE;
      var key, cert;
      ok, key, cert := ProcessJob(job, start, Some(nonce));
      if ok {
        JobStoresWhereLookedUp(TlsType.SelfSigned, names, manager.digest);
        CertificateRoundTrip(manager.cipher.value, nonce, key, cert);
      }
    }

    /** Adds the job, waits for it, and waits three seconds more. The job may have started before this request. */
    method RequestJob(names: seq<string>) returns (ok: bool, ghost at: nat)
      requires Sound()
      modifies manager`state, manager`stored, manager`failures, this`now, this`asked, this`unanswered, this`notIssued
      ensures asked == old(asked) + [Job(TLS_CERTIFICATE, Join(names))]
      ensures unanswered == old(unanswered) + if ok then 0 else 1
      ensures ok ==> Delivered(names, at)
    {
      var job := Job(TLS_CERTIFICATE, Join(names));
      asked, unanswered := asked + [job], unanswered + 1;
      var added: bool := *;
      if !added {
        return false, 0;
      }
      var start: nat := *;
      at := start;
      ok := LeaderDoesJob(job, names, start);
      if ok {
        ok := WaitForJob(names, start);
      }
      if ok {
        unanswered := unanswered - 1;
      }
    }

    /** Waits for the job's answer and three seconds more, while other secrets may change. */
    method WaitForJob(names: seq<string>, start: nat) returns (ok: bool)
      requires Sound() && Found(SecretKey(TlsType.SelfSigned, names, manager.digest)).Pair?
      modifies manager`state, this`now
      ensures var key := SecretKey(TlsType.SelfSigned, names, manager.digest);
              Found(key) == old(Found(key)) && start + 3 * SECOND <= now <= start + MAX_LAG
    {
      var secretKey := SecretKey(TlsType.SelfSigned, names, manager.digest);
      var others: map<string, Bytes> := *;
      manager.state := Some(others[secretKey := manager.state.value[secretKey]]);
      var lag: nat := 3 * SECOND;
      lag :| 3 * SECOND <= lag <= MAX_LAG;
      now := start + lag;
      ok := *;
    }

    /** A job is needed: there is no certificate, or inspection refuses the one that is there. */
    predicate NeedsJob(site: Site, answer: Answer, at: nat)
      requires site.tls.Some?
    {
      || answer.Missing?
      || (answer.Pair? && x509.parse(answer.cert).Some? &&
          InspectCertificate(site, x509.parse(answer.cert).value, at) != Fine)
    }

    /** What the caller gets when no job is needed. */
    function Settled(answer: Answer): Result {
      match answer
      case Panics => Crashed
      case Pair(key, cert) => if x509.parse(cert).Some? then Done(key, cert) else Failed
      case _ => Failed
    }

    /** Looks at the certificate that is stored; None means that a job is needed. */
    method LookUp(site: Site, names: seq<string>) returns (r: Option<Result>)
      requires NamesMatter(site)
      ensures var found := Found(SecretKey(TlsType.SelfSigned, names, manager.digest));
              && (r.None? <==> NeedsJob(site, found, now))
              && (r.Some? ==> r.value == Settled(found))
    {
      var answer := manager.GetCertificate(TlsType.SelfSigned, names);
      if answer.Error? {
        return Some(Failed);
      }
      if answer.Panics? {
        return Some(Crashed);
      }
      if answer.Pair? {
        var parsed := x509.parse(answer.cert);
        if parsed.None? {
          return Some(Failed);
        }
        if InspectCertificate(site, parsed.value, now) == Fine {
          return Some(Done(answer.key, answer.cert));
        }
      }
      r := None;
    }

    /** After an answered request no further job is needed if and only if no name has a comma. */
    lemma DeliveredSettles(site: Site, at: nat)
      requires NamesMatter(site) && Delivered(NamesOf(site), at)
      ensures var found := Found(SecretKey(TlsType.SelfSigned, NamesOf(site), manager.digest));
              Settled(found).Done? && (NeedsJob(site, found, now) <==> !CommaFree(NamesOf(site)))
    {
      FreshCertificateAccepted(site, at, now);
    }

    /** `rounds` bounds the jobs requested, where the program has no bound. What was found at first decides whether a
    job is asked for; if so, every job is the site's own. With names free of commas one job is always enough: the
    answer after it is never to request another. With a comma in a name no number of jobs is enough. */
    method GetSelfSignedCertificate(site: Site, rounds: nat) returns (r: Result, requested: nat)
      requires Sound() && NamesMatter(site)
      modifies manager`state, manager`stored, manager`failures, this`now, this`asked, this`unanswered, this`notIssued
      ensures r.Done? ==>
                && Found(SecretKey(TlsType.SelfSigned, NamesOf(site), manager.digest)) == Pair(r.key, r.cert)
                && x509.parse(r.cert).Some? && InspectCertificate(site, x509.parse(r.cert).value, now) == Fine
      ensures var found := old(Found(SecretKey(TlsType.SelfSigned, NamesOf(site), manager.digest)));
              && (asked != old(asked) <==> NeedsJob(site, found, old(now)) && rounds > 0)
              && (NeedsJob(site, found, old(now)) && rounds == 0 ==> r.StillTrying?)
              && (!NeedsJob(site, found, old(now)) ==> r == Settled(found))
      ensures old(asked) <= asked && (asked == old(asked) ==> unchanged(manager))
      ensures forall k | |old(asked)| <= k < |asked| :: asked[k] == Job(TLS_CERTIFICATE, Join(NamesOf(site)))
      ensures |asked| == |old(asked)| + requested + unanswered - old(unanswered)
      ensures asked != old(asked) ==> !r.Crashed? && (r.Failed? <==> unanswered == old(unanswered) + 1)
      ensures asked != old(asked) && !r.Failed? ==> unanswered == old(unanswered)
      ensures requested <= rounds && (r.StillTrying? ==> requested == rounds)
      ensures CommaFree(NamesOf(site)) && asked != old(asked) ==>
                if r.Failed? then requested == 0 else r.Done? && requested == 1
      ensures !CommaFree(NamesOf(site)) && asked != old(asked) ==> r.Failed? || r.StillTrying?
    {
      var names := [site.domain] + site.aliases;
      requested := 0;
      ghost var at := 0;
      ghost var needed := NeedsJob(site, Found(SecretKey(TlsType.SelfSigned, names, manager.digest)), now);
      while true
        invariant requested <= rounds
        invariant requested == 0 ==> unchanged(manager) && now == old(now)
        invariant requested > 0 ==> Delivered(names, at)
        invariant requested > 0 ==> needed
        invariant CommaFree(names) ==> requested <= 1
        invariant old(asked) <= asked && |asked| == |old(asked)| + requested && unanswered == old(unanswered)
        invariant forall k | |old(asked)| <= k < |asked| :: asked[k] == Job(TLS_CERTIFICATE, Join(names))
        decreases rounds - requested
      {
        if requested > 0 {
          DeliveredSettles(site, at);
        }
        var known := LookUp(site, names);
        if known.Some? {
          return known.value, requested;
        }
        if requested == rounds {
          return StillTrying, requested;
        }
        var ok;
        ok, at := RequestJob(names);
        if !ok {
          return Failed, requested;
        }
        requested := requested + 1;
      }
    }
  }
}
