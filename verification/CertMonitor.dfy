/** The worker that looks at the certificates on disk: it renews those issued by the cluster, and warns about the
imported ones that are about to expire. */
module CertMonitor {
  import opened Options
  import opened Sites
  import Certificates
  import DomainLists
  import Secrets
  import SelfSigned

  const DAY := 24 * Certificates.HOUR
  /** Days before the expiration at which a notification is due, the tightest first. */
  const CHECKS: seq<int> := [-2, -1, 0, 1, 2, 3, 7, 14, 30]
  const SELF_SIGNED_MIN_DAYS := 14
  const ACME_MIN_DAYS := 21

  predicate Passed(expires: int, now: int, i: nat)
    requires i < |CHECKS|
  {
    expires < now + CHECKS[i] * DAY
  }

  predicate IsTightest(expires: int, now: int, i: nat) {
    i < |CHECKS| && Passed(expires, now, i) && forall j: nat | j < i :: !Passed(expires, now, j)
  }

  /** The tightest threshold passed is the one with the fewest days: fewer days are left than it says, and not fewer
  than the one before it says. */
  lemma TightestIsNearest(expires: int, now: int, i: nat)
    requires i < |CHECKS|
    ensures IsTightest(expires, now, i) <==>
            expires < now + CHECKS[i] * DAY && (i > 0 ==> now + CHECKS[i - 1] * DAY <= expires)
    ensures IsTightest(expires, now, i) ==>
              forall j: nat | j < |CHECKS| && Passed(expires, now, j) :: CHECKS[i] <= CHECKS[j]
  {
    ChecksAscend();
    if i > 0 {
      forall j: nat | j < i
        ensures Passed(expires, now, j) ==> Passed(expires, now, i - 1)
      {
        assert j == i - 1 || CHECKS[j] * DAY < CHECKS[i - 1] * DAY;
      }
      assert IsTightest(expires, now, i) ==> !Passed(expires, now, i - 1);
    }
  }

  lemma ChecksAscend()
    ensures forall i, j | 0 <= i < j < |CHECKS| :: CHECKS[i] < CHECKS[j] && CHECKS[i] * DAY < CHECKS[j] * DAY
  {
  }

  /** Some threshold is passed exactly if fewer than thirty days are left. */
  lemma FirstWarning(expires: int, now: int)
    ensures (exists i: nat :: IsTightest(expires, now, i)) <==> expires < now + 30 * DAY
  {
    if expires < now + 30 * DAY {
      var i := 0;
      assert Passed(expires, now, 8);
      while !Passed(expires, now, i)
        invariant i < |CHECKS| && forall j: nat | j < i :: !Passed(expires, now, j)
        decreases |CHECKS| - i
      {
        i := i + 1;
      }
      assert IsTightest(expires, now, i);
    }
  }

  datatype Notice = Notice(domain: string, index: nat)

  /** The thresholds notified for a domain, in order. */
  function Notified(log: seq<Notice>, domain: string): (r: seq<nat>)
    ensures forall i | i in r :: Notice(domain, i) in log
  {
    if log == [] then []
    else
      var n := |log| - 1;
      Notified(log[..n], domain) + if log[n].domain == domain then [log[n].index] else []
  }

  predicate Decreasing(s: seq<nat>) {
    forall i, j | 0 <= i < j < |s| :: s[i] > s[j]
  }

  lemma {:induction false} DecreasingIsShort(s: seq<nat>)
    requires Decreasing(s) && s != []
    ensures |s| <= s[0] + 1
  {
    if |s| > 1 {
      DecreasingIsShort(s[1..]);
    }
  }

  /** What the memory says about the notices sent since the worker was started. */
  ghost predicate Remembers(log: seq<Notice>, memory: map<string, nat>, domain: string) {
    var s := Notified(log, domain);
    && Decreasing(s)
    && (forall i | i in s :: i < |CHECKS|)
    && (domain in memory <==> s != [])
    && (s != [] ==> memory[domain] == s[|s| - 1])
  }

  /** Over any run a domain is notified at most nine times. */
  lemma AtMostNine(log: seq<Notice>, memory: map<string, nat>, domain: string)
    requires Remembers(log, memory, domain)
    ensures |Notified(log, domain)| <= 9
  {
    var s := Notified(log, domain);
    if s != [] {
      DecreasingIsShort(s);
      assert s[0] in s;
    }
  }

  /** And every notification for a domain says fewer days than the ones before. */
  lemma WarningsTighten(log: seq<Notice>, memory: map<string, nat>, domain: string)
    requires Remembers(log, memory, domain)
    ensures var s := Notified(log, domain);
            forall i, j | 0 <= i < j < |s| :: s[i] < |CHECKS| && CHECKS[s[j]] < CHECKS[s[i]]
  {
    var s := Notified(log, domain);
    forall i, j | 0 <= i < j < |s| ensures s[i] < |CHECKS| && CHECKS[s[j]] < CHECKS[s[i]] {
      assert s[i] in s && s[j] in s;
      ChecksAscend();
    }
  }

  ghost predicate Tighter(i: nat, s: seq<nat>) {
    forall k | k in s :: i < k
  }

  /** A threshold is notified now exactly if it is the tightest one passed, and tighter than all notified before. */
  ghost predicate IsDue(log: seq<Notice>, domain: string, expires: int, now: int, i: nat) {
    IsTightest(expires, now, i) && Tighter(i, Notified(log, domain))
  }

  lemma NotifyOne(log: seq<Notice>, memory: map<string, nat>, domain: string, i: nat, other: string)
    requires Remembers(log, memory, other) && i < |CHECKS|
    requires Tighter(i, Notified(log, domain))
    ensures Remembers(log + [Notice(domain, i)], memory[domain := i], other)
    ensures Notified(log + [Notice(domain, i)], other) == Notified(log, other) + if other == domain then [i] else []
  {
    assert (log + [Notice(domain, i)])[..|log|] == log;
    var s := Notified(log, domain);
    assert forall j | 0 <= j < |s| :: s[j] in s;
  }

  function Sent(memory: map<string, nat>, domain: string): nat {
    if domain in memory then memory[domain] else |CHECKS|
  }

  /** The remembered threshold is the tightest one notified. */
  lemma SentIsLeast(log: seq<Notice>, memory: map<string, nat>, domain: string)
    requires Remembers(log, memory, domain)
    ensures Sent(memory, domain) <= |CHECKS|
    ensures forall i: nat | i < |CHECKS| :: i < Sent(memory, domain) <==> Tighter(i, Notified(log, domain))
    ensures Sent(memory, domain) < |CHECKS| ==> Notice(domain, Sent(memory, domain)) in log
  {
    var s := Notified(log, domain);
    if s != [] {
      var last := |s| - 1;
      assert s[last] in s;
      forall k | k in s
        ensures s[last] <= k
      {
        var j :| 0 <= j < |s| && s[j] == k;
      }
    }
  }

  /** A notice at least as tight was sent for the domain. */
  ghost predicate Told(log: seq<Notice>, domain: string, i: nat) {
    exists n :: n in log && n.domain == domain && n.index <= i
  }

  datatype File = Missing | Broken | Cert(expires: int, selfSigned: bool)

  /** The job that a site's certificate needs. */
  function JobFor(site: Site, file: File, now: int): Option<SelfSigned.Job> {
    if site.tls.None? || !file.Cert? then None
    else
      var names := DomainLists.Join([site.domain] + site.aliases);
      match site.tls.value.kind
      case SelfSigned =>
        if file.expires < now + SELF_SIGNED_MIN_DAYS * DAY
        then Some(SelfSigned.Job(SelfSigned.TLS_CERTIFICATE, names)) else None
      case Acme =>
        if file.expires < now + ACME_MIN_DAYS * DAY || file.selfSigned
        then Some(SelfSigned.Job(SelfSigned.ACME, names)) else None
      case Imported => None
      case AzureKeyVault => None
  }

  predicate IsIssued(site: Site) {
    site.tls.Some? && (site.tls.value.kind.SelfSigned? || site.tls.value.kind.Acme?)
  }

  /** The passes come in time: an issued certificate for which no job is due is not about to expire at any moment up to
  the next daily pass, and for more than another week. */
  lemma NoJobNotExpiring(site: Site, cert: Certificates.Certificate, selfSigned: bool, now: nat, later: nat)
    requires IsIssued(site) && JobFor(site, Cert(cert.notAfter, selfSigned), now).None?
    requires later <= now + 13 * DAY
    ensures !Certificates.InspectCertificate(site, cert, later).Expiring?
  {
  }

  function MinDays(kind: TlsType): int {
    if kind.SelfSigned? then SELF_SIGNED_MIN_DAYS else ACME_MIN_DAYS
  }

  /** The margin is exact: half a day less than fourteen days for self-signed certificates, and than twenty-one for
  those issued through ACME. */
  lemma NoJobMargin(site: Site, now: nat, later: nat)
    requires IsIssued(site)
    ensures (forall cert: Certificates.Certificate, selfSigned: bool |
               JobFor(site, Cert(cert.notAfter, selfSigned), now).None? ::
               !Certificates.InspectCertificate(site, cert, later).Expiring?)
            <==> later <= now + MinDays(site.tls.value.kind) * DAY - 12 * Certificates.HOUR
  {
    if later > now + MinDays(site.tls.value.kind) * DAY - 12 * Certificates.HOUR {
      var cert := Certificates.Certificate(0, now + MinDays(site.tls.value.kind) * DAY, []);
      assert JobFor(site, Cert(cert.notAfter, false), now).None?;
      assert Certificates.InspectCertificate(site, cert, later).Expiring?;
    }
  }

  /** A self-signed certificate on the disk of a site that wants one from ACME is temporary: it is replaced at once. */
  lemma TemporaryIsReplaced(site: Site, expires: int, selfSigned: bool, now: int)
    requires IsIssued(site) && now + ACME_MIN_DAYS * DAY <= expires
    ensures JobFor(site, Cert(expires, selfSigned), now).Some? <==> site.tls.value.kind.Acme? && selfSigned
  {
  }

  /** A job stores its certificate where the site looks it up: under the key of the site's own type and names. */
  lemma JobRenewsOwnCertificate(site: Site, file: File, now: int, digest: string -> string)
    requires JobFor(site, file, now).Some?
    ensures IsIssued(site) && file.Cert?
    ensures var job := JobFor(site, file, now).value;
            && (job.kind == SelfSigned.TLS_CERTIFICATE || job.kind == SelfSigned.ACME)
            && var kind := if job.kind == SelfSigned.ACME then TlsType.Acme else TlsType.SelfSigned;
               Secrets.SecretKey(kind, DomainLists.Split(job.data), digest) ==
               Secrets.SecretKey(site.tls.value.kind, Certificates.NamesOf(site), digest)
  {
    SelfSigned.JobStoresWhereLookedUp(site.tls.value.kind, Certificates.NamesOf(site), digest);
  }

  /** And the job does what it is for: with what it issues, no job is due for the rest of the year but two weeks. */
  lemma NoJobAfterIssue(site: Site, data: string, at: nat, now: nat)
    requires site.tls.Some? && site.tls.value.kind.SelfSigned?
    ensures JobFor(site, Cert(Certificates.Issued(data, at).notAfter, true), now).None? <==>
            now + SELF_SIGNED_MIN_DAYS * DAY <= Certificates.WholeSeconds(at) + Certificates.VALIDITY
  {
  }

  function JobsFor(sites: seq<Site>, files: string -> File, now: int): seq<SelfSigned.Job> {
    if sites == [] then []
    else
      var n := |sites| - 1;
      JobsFor(sites[..n], files, now) + JobsOf(sites[n], files(sites[n].domain), now)
  }

  function JobsOf(site: Site, file: File, now: int): seq<SelfSigned.Job> {
    match JobFor(site, file, now)
    case None => []
    case Some(job) => [job]
  }

  /** One more site was visited. */
  lemma JobsForNext(sites: seq<Site>, files: string -> File, now: int, i: nat, before: seq<SelfSigned.Job>)
    requires i < |sites|
    ensures before + JobsFor(sites[..i + 1], files, now) ==
            before + JobsFor(sites[..i], files, now) + JobsOf(sites[i], files(sites[i].domain), now)
    ensures JobsFor(sites[..i + 1], files, now) != [] <==>
            JobsFor(sites[..i], files, now) != [] || JobFor(sites[i], files(sites[i].domain), now).Some?
  {
    assert sites[..i + 1][..i] == sites[..i];
  }

  /** The site's certificate is on disk and cannot be read or parsed. */
  predicate IsBroken(site: Site, file: File) {
    site.tls.Some? && file.Broken?
  }

  predicate AnyBroken(sites: seq<Site>, files: string -> File) {
    exists i :: 0 <= i < |sites| && IsBroken(sites[i], files(sites[i].domain))
  }

  lemma BrokenNext(sites: seq<Site>, files: string -> File, i: nat)
    requires i < |sites|
    ensures AnyBroken(sites[..i + 1], files) <==>
            AnyBroken(sites[..i], files) || IsBroken(sites[i], files(sites[i].domain))
    ensures AnyBroken(sites[..i + 1], files) ==> AnyBroken(sites, files)
  {
    var longer := sites[..i + 1];
    forall k | 0 <= k < i ensures longer[k] == sites[..i][k] == sites[k] {
    }
    if IsBroken(sites[i], files(sites[i].domain)) {
      assert longer[i] == sites[i];
    } else if AnyBroken(sites[..i], files) {
      var k :| 0 <= k < i && IsBroken(sites[..i][k], files(sites[..i][k].domain));
      assert longer[k] == sites[..i][k];
    }
  }

  predicate Warned(site: Site) {
    site.tls.Some? && (site.tls.value.kind.Imported? || site.tls.value.kind.AzureKeyVault?)
  }

  /** Every threshold that the site's certificate has passed was notified, or a tighter one. */
  ghost predicate WarnedInTime(log: seq<Notice>, site: Site, file: File, now: int) {
    Warned(site) && file.Cert? ==>
      forall i: nat | i < |CHECKS| && Passed(file.expires, now, i) :: Told(log, site.domain, i)
  }

  lemma WarnedGrows(log: seq<Notice>, log': seq<Notice>, site: Site, file: File, now: int)
    requires log <= log' && WarnedInTime(log, site, file, now)
    ensures WarnedInTime(log', site, file, now)
  {
    if Warned(site) && file.Cert? {
      forall i: nat | i < |CHECKS| && Passed(file.expires, now, i)
        ensures Told(log', site.domain, i)
      {
        assert Told(log, site.domain, i);
        var n :| n in log && n.domain == site.domain && n.index <= i;
        assert n in log';
      }
    }
  }

  ghost predicate AllWarned(log: seq<Notice>, sites: seq<Site>, files: string -> File, now: int) {
    forall i | 0 <= i < |sites| :: WarnedInTime(log, sites[i], files(sites[i].domain), now)
  }

  lemma AllWarnedNext(log: seq<Notice>, log': seq<Notice>, sites: seq<Site>, files: string -> File, now: int, i: nat)
    requires i < |sites| && log <= log' && AllWarned(log, sites[..i], files, now)
    requires WarnedInTime(log', sites[i], files(sites[i].domain), now)
    ensures AllWarned(log', sites[..i + 1], files, now)
  {
    forall k | 0 <= k < i
      ensures WarnedInTime(log', sites[k], files(sites[k].domain), now)
    {
      assert sites[..i][k] == sites[k];
      WarnedGrows(log, log', sites[k], files(sites[k].domain), now);
    }
  }

  class Monitor {
    var notifications: map<string, nat>
    ghost var log: seq<Notice>
    ghost var asked: seq<SelfSigned.Job> // the jobs added so far
    ghost var failedJobs: nat // how many of them could not be added, or failed

    ghost predicate Valid()
      reads this
    {
      forall d :: Remembers(log, notifications, d)
    }

    constructor ()
      ensures Valid() && log == []
    {
      notifications, log := map[], [];
    }

    /** The loop over the thresholds, up to the first that is passed and has not been notified. */
    static method FindDue(expires: int, now: int, sent: nat) returns (i: nat)
      ensures i <= |CHECKS|
      ensures i < |CHECKS| ==> i < sent && IsTightest(expires, now, i)
      ensures i == |CHECKS| ==> forall j: nat | j < |CHECKS| && j < sent :: !Passed(expires, now, j)
    {
      i := 0;
      while i < |CHECKS|
        invariant i <= |CHECKS|
        invariant forall j: nat | j < i && j < sent :: !Passed(expires, now, j)
      {
        if expires < now + CHECKS[i] * DAY {
          if i < sent {
            return;
          }
        }
        i := i + 1;
      }
    }

    /** One imported certificate: at most one notification, for the tightest threshold passed, and exactly if it is
    tighter than every one sent before for the domain. */
    method CheckImported(domain: string, expires: int, now: int) returns (ghost due: nat)
      requires Valid()
      modifies this`notifications, this`log
      ensures Valid()
      ensures due < |CHECKS| ==> IsDue(old(log), domain, expires, now, due) && log == old(log) + [Notice(domain, due)]
      ensures due >= |CHECKS| ==> log == old(log) && forall i: nat :: !IsDue(old(log), domain, expires, now, i)
      ensures forall i: nat | i < |CHECKS| && Passed(expires, now, i) :: Told(log, domain, i)
    {
      assert Remembers(log, notifications, domain);
      SentIsLeast(log, notifications, domain);
      var sent := if domain in notifications then notifications[domain] else |CHECKS|;
      var i := FindDue(expires, now, sent);
      due := i;
      if i < |CHECKS| {
        assert IsDue(log, domain, expires, now, i);
        Record(domain, i);
      }
      forall j: nat | j < |CHECKS| && Passed(expires, now, j)
        ensures Told(log, domain, j)
      {
        if i < |CHECKS| {
          assert Notice(domain, i) in log;
        } else {
          assert Notice(domain, sent) in log;
        }
      }
    }

    method Record(domain: string, i: nat)
      requires Valid() && i < |CHECKS|
      requires Tighter(i, Notified(log, domain))
      modifies this`notifications, this`log
      ensures Valid() && log == old(log) + [Notice(domain, i)]
    {
      ghost var log', memory := log + [Notice(domain, i)], notifications[domain := i];
      forall d: string
        ensures Remembers(log', memory, d)
      {
        assert Remembers(log, notifications, d);
        NotifyOne(log, notifications, domain, i, d);
      }
      notifications := notifications[domain := i];
      log := log';
    }

    /** A job is added and waited for; either may fail. */
    method RunJob(job: SelfSigned.Job) returns (ok: bool)
      modifies this`asked, this`failedJobs
      ensures asked == old(asked) + [job]
      ensures failedJobs == old(failedJobs) + if ok then 0 else 1
    {
      asked := asked + [job];
      ok := *;
      if !ok {
        failedJobs := failedJobs + 1;
      }
    }

    /** The site's job is run if it needs one, and every threshold passed by an imported certificate is notified. */
    method CheckSite(site: Site, file: File, now: int) returns (ok: bool)
      requires Valid() && site.tls.Some? && file.Cert?
      modifies this
      ensures Valid() && old(log) <= log
      ensures WarnedInTime(log, site, file, now)
      ensures asked == old(asked) + JobsOf(site, file, now)
      ensures failedJobs >= old(failedJobs) && (ok <==> failedJobs == old(failedJobs))
      ensures !Warned(site) ==> log == old(log)
    {
      ok := true;
      var names := DomainLists.Join([site.domain] + site.aliases);
      match site.tls.value.kind
      case SelfSigned =>
        if file.expires < now + SELF_SIGNED_MIN_DAYS * DAY {
          ok := RunJob(SelfSigned.Job(SelfSigned.TLS_CERTIFICATE, names));
        }
      case Acme =>
        if file.expires < now + ACME_MIN_DAYS * DAY || file.selfSigned {
          ok := RunJob(SelfSigned.Job(SelfSigned.ACME, names));
        }
      case Imported => var _ := CheckImported(site.domain, file.expires, now);
      case AzureKeyVault => var _ := CheckImported(site.domain, file.expires, now);
    }

    /** One turn of a pass: a site without a TLS configuration, or without a certificate on disk, is skipped. */
    method PassSite(site: Site, file: File, now: int) returns (ok: bool, renewed: bool)
      requires Valid()
      modifies this
      ensures Valid() && old(log) <= log
      ensures WarnedInTime(log, site, file, now)
      ensures asked == old(asked) + JobsOf(site, file, now) && (renewed <==> ok && JobFor(site, file, now).Some?)
      ensures failedJobs >= old(failedJobs)
      ensures ok <==> failedJobs == old(failedJobs) && !IsBroken(site, file)
    {
      ok, renewed := true, false;
      if site.tls.Some? {
        if file.Broken? {
          return false, false;
        }
        if file.Cert? {
          ok := CheckSite(site, file, now);
          renewed := ok && JobFor(site, file, now).Some?;
        }
      }
    }

    /** One pass over the sites, up to the `visited` first ones. It stops after the first one with a certificate that
    cannot be read or with a job that fails, and succeeds exactly if there is none; then every certificate that needs it
    is renewed, every passed threshold is notified, and a sync is queued if anything was renewed. */
    method Pass(sites: seq<Site>, files: string -> File, now: int)
        returns (ok: bool, queued: bool, ghost visited: nat)
      requires Valid()
      modifies this
      ensures Valid() && old(log) <= log
      ensures visited <= |sites| && asked == old(asked) + JobsFor(sites[..visited], files, now)
      ensures failedJobs >= old(failedJobs)
      ensures ok <==> failedJobs == old(failedJobs) && !AnyBroken(sites, files)
      ensures ok ==> sites[..visited] == sites && AllWarned(log, sites, files, now)
      ensures queued <==> ok && JobsFor(sites, files, now) != []
    {
      var needsSync := false;
      visited := 0;
      for i := 0 to |sites|
        invariant visited == i
        invariant Valid() && old(log) <= log
        invariant asked == old(asked) + JobsFor(sites[..i], files, now)
        invariant needsSync <==> JobsFor(sites[..i], files, now) != []
        invariant failedJobs == old(failedJobs) && !AnyBroken(sites[..i], files)
        invariant AllWarned(log, sites[..i], files, now)
      {
        ghost var before := log;
        JobsForNext(sites, files, now, i, old(asked));
        BrokenNext(sites, files, i);
        var done, renewed := PassSite(sites[i], files(sites[i].domain), now);
        visited := i + 1;
        if !done {
          return false, false, visited;
        }
        needsSync := needsSync || renewed;
        AllWarnedNext(before, log, sites, files, now, i);
      }
      assert sites[..|sites|] == sites;
      ok, queued := true, needsSync;
    }
  }
}
