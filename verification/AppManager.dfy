/** Reconciliation of the folders with apps and sites below the platform's root folder. */
module AppManager {
  import opened Options
  import opened Sites

  type Content = string

  datatype KeyPair = KeyPair(key: Content, certificate: Content)

  datatype TlsEntry = NoTls | TlsFile | TlsFolder(key: Option<Content>, certificate: Option<Content>)

  /** An entry of the folder with the sites: a folder, a symbolic link to a folder somewhere else, or anything that does
  not lead to a folder. `www` is where the site's own symbolic link points to. */
  datatype SiteEntry =
    | SiteFile
    | SiteFolder(www: Option<string>, tls: TlsEntry)
    | SiteLink(www: Option<string>, tls: TlsEntry)

  /** An entry of the folder with the staged apps; a symbolic link counts as a file. A folder has the whole app, or what
  a staging that failed has left of it. */
  datatype AppEntry = AppFile | AppFolder(complete: bool)

  /** The common files of the last run. */
  datatype Common = Common(updated: bool, restartServer: bool)

  const DEFAULT := "_default"
  const STAGING_FAILED := "error staging the app"

  /** The link leads to the site's own app, or to the default one if the site has none. */
  predicate ShowsApp(www: Option<string>, site: Site) {
    www == if site.app.Some? then site.app else Some(DEFAULT)
  }

  /** The path leads to a folder with a link to the site's own app, and with its own key and certificate, unless one of
  these files could not be written. */
  predicate Complete(entry: SiteEntry, site: Site, pair: Option<KeyPair>, written: bool) {
    && pair.Some? && !entry.SiteFile? && ShowsApp(entry.www, site)
    && (written ==> entry.tls == TlsFolder(Some(pair.value.key), Some(pair.value.certificate)))
  }

  /** The site's folder is there and complete. */
  predicate Ready(entry: SiteEntry, site: Site, pair: Option<KeyPair>) {
    entry.SiteFolder? && Complete(entry, site, pair, true)
  }

  /** The folder has the site's key and certificate, and neither is empty, so that they are not written again. */
  predicate Settled(entry: SiteEntry, pair: Option<KeyPair>) {
    && pair.Some? && |pair.value.key| > 0 && |pair.value.certificate| > 0
    && entry.SiteFolder? && entry.tls == TlsFolder(Some(pair.value.key), Some(pair.value.certificate))
  }

  predicate LinkAt(folders: map<string, SiteEntry>, name: string) {
    name in folders && folders[name].SiteLink?
  }

  /** Something that does not lead to a folder has the name. */
  predicate FileAt(folders: map<string, SiteEntry>, name: string) {
    name in folders && folders[name].SiteFile?
  }

  /** The site's folders cannot be made: something else is in the place of one of them. */
  predicate Obstructed(folders: map<string, SiteEntry>, name: string) {
    name in folders && (folders[name].SiteFile? || folders[name].tls.TlsFile?)
  }

  /** An operation for this name failed, not counting the first `from` failures. */
  predicate FailedSince(failed: seq<string>, from: nat, name: string) {
    from <= |failed| && name in failed[from..]
  }

  lemma FailedInTurn(failed: seq<string>, middle: seq<string>, from: nat, name: string)
    requires from <= |middle| && middle <= failed
    ensures FailedSince(failed, from, name) <==> FailedSince(middle, from, name) || FailedSince(failed, |middle|, name)
  {
    assert failed[from..] == middle[from..] + failed[|middle|..];
  }

  /** The same names are links. */
  ghost predicate SameLinks(a: map<string, SiteEntry>, b: map<string, SiteEntry>) {
    forall name :: LinkAt(a, name) <==> LinkAt(b, name)
  }

  /** Links are switched on every run and do not disturb the running server, so they do not count as updates. */
  function WithoutLink(entry: SiteEntry): SiteEntry {
    if entry.SiteFile? then entry else entry.(www := None)
  }

  ghost predicate SameWithoutLinks(a: map<string, SiteEntry>, b: map<string, SiteEntry>) {
    a.Keys == b.Keys && forall name | name in a :: WithoutLink(a[name]) == WithoutLink(b[name])
  }

  predicate DistinctDomains(list: seq<Site>) {
    && (forall i, j | 0 <= i < j < |list| :: list[i].domain != list[j].domain)
    && (forall i | 0 <= i < |list| :: list[i].domain != DEFAULT)
  }

  /** The apps that the sites ask for. */
  function AppNames(list: seq<Site>): set<string> {
    if list == [] then {}
    else
      var n := |list| - 1;
      AppNames(list[..n]) + if list[n].app.Some? then {list[n].app.value} else {}
  }

  lemma AppNamesNext(list: seq<Site>, n: nat)
    requires n < |list|
    ensures AppNames(list[..n + 1]) == AppNames(list[..n]) + if list[n].app.Some? then {list[n].app.value} else {}
  {
    assert list[..n + 1][..n] == list[..n];
  }

  /** The app is among the queued jobs, which are the indexes of the sites that asked. */
  ghost predicate Queued(list: seq<Site>, jobs: seq<nat>, name: string) {
    exists k :: 0 <= k < |jobs| && jobs[k] < |list| && list[jobs[k]].app == Some(name)
  }

  /** The job is of a site with an app that is not there. */
  predicate Misses(list: seq<Site>, job: nat, apps: map<string, AppEntry>) {
    job < |list| && list[job].app.Some? && list[job].app.value !in apps
  }

  /** The jobs fetch exactly these apps, each of them once. */
  ghost predicate FetchOnce(list: seq<Site>, jobs: seq<nat>, fetching: set<string>, apps: map<string, AppEntry>) {
    && (forall k | 0 <= k < |jobs| :: Misses(list, jobs[k], apps))
    && (forall k, l | 0 <= k < l < |jobs| :: list[jobs[k]].app != list[jobs[l]].app)
    && (forall name :: name in fetching <==> Queued(list, jobs, name))
  }

  lemma FetchOneMore(list: seq<Site>, jobs: seq<nat>, fetching: set<string>, apps: map<string, AppEntry>, i: nat)
    requires FetchOnce(list, jobs, fetching, apps)
    requires Misses(list, i, apps) && list[i].app.value !in fetching
    ensures FetchOnce(list, jobs + [i], fetching + {list[i].app.value}, apps)
  {
    var more, app := jobs + [i], list[i].app.value;
    forall k | 0 <= k < |jobs| ensures list[jobs[k]].app != Some(app) {
      if list[jobs[k]].app == Some(app) {
        assert Queued(list, jobs, app);
      }
    }
    forall name ensures Queued(list, more, name) <==> name in fetching + {app} {
      if Queued(list, jobs, name) {
        var k :| 0 <= k < |jobs| && jobs[k] < |list| && list[jobs[k]].app == Some(name);
        assert more[k] == jobs[k];
      } else if name == app {
        assert more[|jobs|] == i;
      }
    }
  }

  /** Apps that were not there before were queued, and are folders now. */
  ghost predicate AppsGrown(list: seq<Site>, jobs: seq<nat>, before: map<string, AppEntry>,
                            apps: map<string, AppEntry>)
  {
    && before.Keys <= apps.Keys
    && forall name | name in apps ::
         if name in before then apps[name] == before[name] else apps[name].AppFolder? && Queued(list, jobs, name)
  }

  /** The app's folder has the whole app. */
  predicate IsStaged(apps: map<string, AppEntry>, name: string) {
    name in apps && apps[name] == AppFolder(true)
  }

  predicate IsHalfStaged(apps: map<string, AppEntry>, name: string) {
    name in apps && apps[name] == AppFolder(false)
  }

  ghost predicate JobOf(list: seq<Site>, jobs: seq<nat>, domain: string) {
    exists job :: job in jobs && job < |list| && list[job].domain == domain
  }

  /** The main loop has visited n sites, and the workers are done with the queued jobs that are not pending: an app
  is staged, or the site that asked has an error. Among the visited sites those have one whose jobs failed. */
  ghost predicate Staging(list: seq<Site>, n: nat, jobs: seq<nat>, pending: set<nat>, before: map<string, AppEntry>,
                          apps: map<string, AppEntry>, errors0: map<string, string>, errors: map<string, string>,
                          fails: seq<string>)
    requires n <= |list|
  {
    && (forall job | job in pending :: job in jobs)
    && (forall job | job in jobs :: job < n && Misses(list, job, before))
    && AppsGrown(list, jobs, before, apps)
    && (forall j, k | j in jobs && k in jobs && list[j].app == list[k].app :: j == k)
    && (forall job | job in jobs && job !in pending ::
          list[job].domain in errors || IsStaged(apps, list[job].app.value))
    && (forall d | d in Domains(list[..n]) :: d in errors <==> d in fails)
    && (forall d | d in fails :: JobOf(list, jobs, d))
    && errors - Domains(list[..n]) == errors0 - Domains(list[..n])
  }

  lemma DomainsNext(list: seq<Site>, n: nat)
    requires n < |list|
    ensures Domains(list[..n + 1]) == Domains(list[..n]) + {list[n].domain}
  {
    assert list[..n + 1][..n] == list[..n];
  }

  /** Resetting the health of the next site does not touch what the workers recorded for others. */
  lemma ResetKeepsStaging(list: seq<Site>, n: nat, jobs: seq<nat>, pending: set<nat>, before: map<string, AppEntry>,
                          apps: map<string, AppEntry>, errors0: map<string, string>, errors: map<string, string>,
                          fails: seq<string>)
    requires n < |list| && DistinctDomains(list)
    requires Staging(list, n, jobs, pending, before, apps, errors0, errors, fails)
    ensures Staging(list, n + 1, jobs, pending, before, apps, errors0, errors - {list[n].domain}, fails)
  {
    DomainsNext(list, n);
    assert list[n].domain !in fails;
    var ds, next := Domains(list[..n]), errors - {list[n].domain};
    assert next - (ds + {list[n].domain}) == (errors - ds) - {list[n].domain};
    assert errors0 - (ds + {list[n].domain}) == (errors0 - ds) - {list[n].domain};
  }

  lemma QueueKeepsStaging(list: seq<Site>, n: nat, jobs: seq<nat>, pending: set<nat>, before: map<string, AppEntry>,
                          apps: map<string, AppEntry>, errors0: map<string, string>, errors: map<string, string>,
                          fails: seq<string>)
    requires n < |list| && Misses(list, n, before) && !Queued(list, jobs, list[n].app.value)
    requires forall job | job in jobs :: job < n
    requires Staging(list, n + 1, jobs, pending, before, apps, errors0, errors, fails)
    ensures Staging(list, n + 1, jobs + [n], pending + {n}, before, apps, errors0, errors, fails)
  {
    var more := jobs + [n];
    forall job | job in jobs
      ensures list[job].app != list[n].app
    {
      var k :| 0 <= k < |jobs| && jobs[k] == job;
    }
    forall name | Queued(list, jobs, name)
      ensures Queued(list, more, name)
    {
      var k :| 0 <= k < |jobs| && jobs[k] < |list| && list[jobs[k]].app == Some(name);
      assert more[k] == jobs[k];
    }
    forall d | JobOf(list, jobs, d)
      ensures JobOf(list, more, d)
    {
      var job :| job in jobs && job < |list| && list[job].domain == d;
      assert job in more;
    }
  }

  lemma AppLeft(list: seq<Site>, jobs: seq<nat>, job: nat, before: map<string, AppEntry>, apps: map<string, AppEntry>,
                apps': map<string, AppEntry>)
    requires AppsGrown(list, jobs, before, apps) && job in jobs && Misses(list, job, before)
    requires apps' == apps || exists complete :: apps' == apps[list[job].app.value := AppFolder(complete)]
    ensures AppsGrown(list, jobs, before, apps')
    ensures forall name | name != list[job].app.value :: IsStaged(apps, name) ==> IsStaged(apps', name)
  {
    var k :| 0 <= k < |jobs| && jobs[k] == job;
    assert Queued(list, jobs, list[job].app.value);
  }

  /** What a worker's job makes of the apps and the errors, with the failures it adds. */
  ghost predicate JobDone(site: Site, apps: map<string, AppEntry>, apps': map<string, AppEntry>,
                          errors: map<string, string>, errors': map<string, string>, more: seq<string>)
    requires site.app.Some?
  {
    if more == [] then apps' == apps[site.app.value := AppFolder(true)] && errors' == errors
    else
      && more == [site.domain] && errors' == errors[site.domain := STAGING_FAILED]
      && (apps' == apps || exists complete :: apps' == apps[site.app.value := AppFolder(complete)])
  }

  /** A worker is done with a job: the app is staged, or anything may be left of it, and the site that asked has an
  error. */
  lemma WorkerKeepsStaging(list: seq<Site>, n: nat, jobs: seq<nat>, pending: set<nat>, before: map<string, AppEntry>,
                           apps: map<string, AppEntry>, errors0: map<string, string>, errors: map<string, string>,
                           fails: seq<string>, job: nat, apps': map<string, AppEntry>, errors': map<string, string>,
                           more: seq<string>)
    requires n <= |list| && Staging(list, n, jobs, pending, before, apps, errors0, errors, fails) && job in pending
    requires JobDone(list[job], apps, apps', errors, errors', more)
    ensures Staging(list, n, jobs, pending - {job}, before, apps', errors0, errors', fails + more)
  {
    AppLeft(list, jobs, job, before, apps, apps');
    assert list[..n][job] == list[job];
    DomainsMember(list[..n], job);
    var ds := Domains(list[..n]);
    assert errors' - ds == errors - ds;
    assert JobOf(list, jobs, list[job].domain);
    forall other | other in jobs && other !in pending - {job}
      ensures list[other].domain in errors' || IsStaged(apps', list[other].app.value)
    {
      if other != job {
        assert list[other].app != list[job].app;
      }
    }
  }

  /** Fetching the app failed, and a site that wants it carries the error. */
  ghost predicate FetchFailed(list: seq<Site>, name: string, errors: map<string, string>) {
    exists i :: 0 <= i < |list| && list[i].app == Some(name) && list[i].domain in errors
  }

  /** What becomes of a wanted app. One that was missing is staged completely, or fetching it failed for the first site
  that asked. A folder stays as it was, also a half-staged one, and anything else in its place goes away. */
  ghost predicate Accounted(list: seq<Site>, name: string, before: map<string, AppEntry>, apps: map<string, AppEntry>,
                            errors: map<string, string>)
  {
    if name !in before then IsStaged(apps, name) || FetchFailed(list, name, errors)
    else if before[name].AppFile? then name !in apps
    else name in apps && apps[name] == before[name]
  }

  /** So an app whose fetching did not fail is staged completely if and only if it was missing or staged completely
  before: one that was half staged stays so. */
  lemma StagedIffNotHalfStaged(list: seq<Site>, name: string, before: map<string, AppEntry>,
                               apps: map<string, AppEntry>, errors: map<string, string>)
    requires Accounted(list, name, before, apps, errors) && (name in before || !FetchFailed(list, name, errors))
    ensures IsStaged(apps, name) <==> name !in before || IsStaged(before, name)
    ensures IsHalfStaged(before, name) <==> name in before && IsHalfStaged(apps, name)
  {
  }

  /** In particular, what a failed staging has left of an app is taken for the app by the next run. */
  lemma HalfStagedStays(site: Site, name: string, apps: map<string, AppEntry>, errors: map<string, string>)
    requires Accounted([site], name, map[name := AppFolder(false)], apps, errors)
    ensures IsHalfStaged(apps, name)
  {
    StagedIffNotHalfStaged([site], name, map[name := AppFolder(false)], apps, errors);
  }

  lemma {:induction false} AppNamesMember(list: seq<Site>, i: nat)
    requires i < |list| && list[i].app.Some?
    ensures list[i].app.value in AppNames(list)
  {
    if i < |list| - 1 {
      AppNamesMember(list[..|list| - 1], i);
    }
  }

  /** More errors leave every wanted app accounted for. */
  lemma AllAccounted(list: seq<Site>, before: map<string, AppEntry>, apps: map<string, AppEntry>,
                     errors: map<string, string>, more: map<string, string>)
    requires errors.Keys <= more.Keys
    requires forall name | name in AppNames(list) :: Accounted(list, name, before, apps, errors)
    ensures forall i | 0 <= i < |list| && list[i].app.Some? :: Accounted(list, list[i].app.value, before, apps, more)
  {
    forall i | 0 <= i < |list| && list[i].app.Some?
      ensures Accounted(list, list[i].app.value, before, apps, more)
    {
      AppNamesMember(list, i);
      var name := list[i].app.value;
      if FetchFailed(list, name, errors) {
        var j :| 0 <= j < |list| && list[j].app == Some(name) && list[j].domain in errors;
        assert list[j].domain in more;
      }
    }
  }

  class Manager {
    var siteFolders: map<string, SiteEntry>
    var appFolders: map<string, AppEntry>
    ghost var commonFiles: Common
    ghost var failed: seq<string> // the names of the sites for which an operation failed so far
    ghost var unwritten: seq<string> // those with a key or certificate that could not be written, so far
    ghost var troubles: nat // how often an operation failed that belongs to no site
    const health: SiteHealth
    const certificates: Site -> Option<KeyPair> // what GetCertificate answers during a run; None is an error

    constructor (health: SiteHealth, certificates: Site -> Option<KeyPair>)
      ensures this.health == health && this.certificates == certificates
      ensures siteFolders == map[] && appFolders == map[]
    {
      this.health := health;
      this.certificates := certificates;
      siteFolders, appFolders := map[], map[];
    }

    /** A folder is made if nothing has its name. A link to a folder will do; anything else is an error. */
    method EnsureSiteFolder(name: string) returns (ok: bool, updated: bool)
      modifies this`siteFolders, this`failed
      ensures failed == old(failed) || failed == old(failed) + [name]
      ensures ok <==> failed == old(failed) && !FileAt(old(siteFolders), name)
      ensures ok ==> name in siteFolders && !siteFolders[name].SiteFile?
      ensures ok && updated ==>
                name !in old(siteFolders) && siteFolders == old(siteFolders)[name := SiteFolder(None, NoTls)]
      ensures !(ok && updated) ==> siteFolders == old(siteFolders) && !updated
    {
      ok, updated := true, false;
      if name !in siteFolders {
        ok := *;
        if ok {
          siteFolders := siteFolders[name := SiteFolder(None, NoTls)];
          updated := true;
        } else {
          failed := failed + [name];
        }
      } else {
        ok := !siteFolders[name].SiteFile?;
      }
    }

    method EnsureTlsFolder(name: string) returns (ok: bool, updated: bool)
      requires name in siteFolders && !siteFolders[name].SiteFile?
      modifies this`siteFolders, this`failed
      ensures failed == old(failed) || failed == old(failed) + [name]
      ensures ok <==> failed == old(failed) && !old(siteFolders)[name].tls.TlsFile?
      ensures name in siteFolders && !siteFolders[name].SiteFile?
      ensures siteFolders == old(siteFolders)[name := old(siteFolders)[name].(tls := siteFolders[name].tls)]
      ensures ok ==> siteFolders[name].tls.TlsFolder?
      ensures !(ok && updated) ==> siteFolders == old(siteFolders) && !updated
      ensures old(siteFolders)[name].tls.TlsFolder? ==> !updated
    {
      ok, updated := true, false;
      if siteFolders[name].tls.NoTls? {
        ok := *;
        if ok {
          siteFolders := siteFolders[name := siteFolders[name].(tls := TlsFolder(None, None))];
          updated := true;
        } else {
          failed := failed + [name];
        }
      } else {
        ok := siteFolders[name].tls.TlsFolder?;
      }
    }

    /** A file that has the content already is not written; an empty one always is. If the file cannot be read or
    written, the caller does not hear of it, and a failed write can leave anything. */
    method WriteFileIfChanged(ghost name: string, file: Option<Content>, val: Content)
        returns (content: Option<Content>, updated: bool)
      modifies this`unwritten
      ensures unwritten == old(unwritten) || unwritten == old(unwritten) + [name]
      ensures unwritten == old(unwritten) ==> content == Some(val)
      ensures unwritten == old(unwritten) ==> (updated <==> !(file == Some(val) && |val| > 0))
      ensures unwritten != old(unwritten) ==> !updated
      ensures file == Some(val) && |val| > 0 ==> content == file
    {
      content, updated := file, false;
      var readable, writable := *, *;
      if !readable {
        unwritten := unwritten + [name];
        return;
      }
      if file.Some? && |file.value| > 0 && file.value == val {
        return;
      }
      if writable {
        content, updated := Some(val), true;
      } else {
        unwritten := unwritten + [name];
        content := *;
      }
    }

    /** The key and the certificate of a site. Errors are ignored. */
    method WriteTlsFiles(name: string, pair: KeyPair) returns (updated: bool)
      requires name in siteFolders && !siteFolders[name].SiteFile? && siteFolders[name].tls.TlsFolder?
      modifies this`siteFolders, this`unwritten
      ensures name in siteFolders && !siteFolders[name].SiteFile? && siteFolders[name].tls.TlsFolder?
      ensures siteFolders == old(siteFolders)[name := old(siteFolders)[name].(tls := siteFolders[name].tls)]
      ensures OnlyOf(name, old(unwritten), unwritten)
      ensures unwritten == old(unwritten) ==> siteFolders[name].tls == TlsFolder(Some(pair.key), Some(pair.certificate))
      ensures unwritten == old(unwritten) && !updated ==> siteFolders == old(siteFolders)
      ensures Settled(old(siteFolders)[name], Some(pair)) ==> !updated && siteFolders == old(siteFolders)
    {
      var tls := siteFolders[name].tls;
      var key, certificate, u;
      key, updated := WriteFileIfChanged(name, tls.key, pair.key);
      certificate, u := WriteFileIfChanged(name, tls.certificate, pair.certificate);
      siteFolders := siteFolders[name := siteFolders[name].(tls := TlsFolder(key, certificate))];
      updated := updated || u;
    }

    /** The list has grown by this name only. */
    static ghost predicate OnlyOf(name: string, before: seq<string>, after: seq<string>) {
      before <= after && forall n | n in after[|before|..] :: n == name
    }

    method ActivateApp(app: string, name: string) returns (ok: bool)
      requires name in siteFolders && !siteFolders[name].SiteFile?
      modifies this`siteFolders, this`failed
      ensures failed == old(failed) + if ok then [] else [name]
      ensures siteFolders ==
              if ok then old(siteFolders)[name := old(siteFolders)[name].(www := Some(app))] else old(siteFolders)
    {
      ok := *;
      if ok {
        siteFolders := siteFolders[name := siteFolders[name].(www := Some(app))];
      } else {
        failed := failed + [name];
      }
    }

    /** The site's folder and its folder for the certificate. */
    method EnsureFolders(name: string) returns (ok: bool, updated: bool)
      modifies this`siteFolders, this`failed
      ensures failed == old(failed) || failed == old(failed) + [name]
      ensures ok <==> failed == old(failed) && !Obstructed(old(siteFolders), name)
      ensures siteFolders - {name} == old(siteFolders) - {name}
      ensures ok ==> name in siteFolders && !siteFolders[name].SiteFile? && siteFolders[name].tls.TlsFolder?
      ensures LinkAt(siteFolders, name) <==> LinkAt(old(siteFolders), name)
      ensures !updated ==> siteFolders == old(siteFolders)
      ensures name in old(siteFolders) && !old(siteFolders)[name].SiteFile? && old(siteFolders)[name].tls.TlsFolder? ==>
                !updated
    {
      ok, updated := EnsureSiteFolder(name);
      if ok {
        var u;
        ok, u := EnsureTlsFolder(name);
        updated := updated || (ok && u);
      }
    }

    /** Something is in the place of the site's folders, or there is no certificate for it. */
    predicate Blocked(site: Site, folders: map<string, SiteEntry>) {
      Obstructed(folders, site.domain) || certificates(site).None?
    }

    /** The body of the loop over the sites, for a healthy site: its folder is complete afterwards, or the
    site has an error; and that exactly if it is blocked or an operation for it failed. */
    method SyncSiteFolder(site: Site) returns (ready: bool, updated: bool)
      requires site.domain !in health.errors
      modifies this`siteFolders, this`failed, this`unwritten, health
      ensures failed == old(failed) || failed == old(failed) + [site.domain]
      ensures OnlyOf(site.domain, old(unwritten), unwritten)
      ensures ready <==> failed == old(failed) && !Blocked(site, old(siteFolders))
      ensures siteFolders - {site.domain} == old(siteFolders) - {site.domain}
      ensures health.errors - {site.domain} == old(health.errors)
      ensures ready <==> site.domain !in health.errors
      ensures ready ==> site.domain in siteFolders &&
                        Complete(siteFolders[site.domain], site, certificates(site), unwritten == old(unwritten))
      ensures LinkAt(siteFolders, site.domain) <==> LinkAt(old(siteFolders), site.domain)
      ensures !updated && unwritten == old(unwritten) ==> SameWithoutLinks(siteFolders, old(siteFolders))
      ensures site.domain in old(siteFolders) && Settled(old(siteFolders)[site.domain], certificates(site)) ==>
                !updated && SameWithoutLinks(siteFolders, old(siteFolders))
    {
      var ok, u := EnsureFolders(site.domain);
      updated := u;
      if !ok {
        health.SetSiteHealth(site.domain, Some("cannot create the site's folders"));
        return false, updated;
      }
      var pair := certificates(site);
      if pair.None? {
        health.SetSiteHealth(site.domain, Some("cannot get the certificate"));
        return false, updated;
      }
      u := WriteTlsFiles(site.domain, pair.value);
      updated := updated || u;
      var bundle := DEFAULT;
      if site.app.Some? {
        bundle := site.app.value;
      }
      ok := ActivateApp(bundle, site.domain);
      if !ok {
        health.SetSiteHealth(site.domain, Some("cannot activate the app"));
        return false, updated;
      }
      ready := true;
    }

    /** The healthy sites among the first n have complete folders, and are the ones to keep. */
    ghost predicate SitesDone(list: seq<Site>, n: nat, expected: seq<string>, folders: map<string, SiteEntry>,
                              errors: map<string, string>, lost: seq<string>)
      requires n <= |list|
    {
      && DEFAULT in expected && (forall name | name in expected :: name in folders && !folders[name].SiteFile?)
      && folders[DEFAULT].www == Some(DEFAULT)
      && (forall name | name in expected :: name == DEFAULT || (name in Domains(list[..n]) && name !in errors))
      && (forall i | 0 <= i < n && list[i].domain !in errors ::
            && list[i].domain in expected
            && Complete(folders[list[i].domain], list[i], certificates(list[i]), list[i].domain !in lost))
      && (forall name | name in lost :: name in Domains(list[..n]))
    }

    /** One more site is done: its folder is complete and expected, or it has an error. */
    lemma OneMoreDone(list: seq<Site>, i: nat, expected: seq<string>, folders: map<string, SiteEntry>,
                      errors: map<string, string>, lost: seq<string>, folders': map<string, SiteEntry>,
                      errors': map<string, string>, more: seq<string>)
      requires i < |list| && DistinctDomains(list) && SitesDone(list, i, expected, folders, errors, lost)
      requires forall name | name in more :: name == list[i].domain
      requires folders' - {list[i].domain} == folders - {list[i].domain}
      requires errors' - {list[i].domain} == errors - {list[i].domain}
      requires list[i].domain !in errors' ==>
                 list[i].domain in folders' &&
                 Complete(folders'[list[i].domain], list[i], certificates(list[i]), more == [])
      ensures SitesDone(list, i + 1, if list[i].domain in errors' then expected else expected + [list[i].domain],
                        folders', errors', lost + more)
    {
      NotAmong(list, i);
      DomainsNext(list, i);
      OthersSame(folders', folders, list[i].domain);
      OthersSame(errors', errors, list[i].domain);
      assert more != [] ==> more[0] in more;
      forall j | 0 <= j < i
        ensures list[j].domain in lost + more <==> list[j].domain in lost
      {
        assert list[j].domain != list[i].domain;
      }
    }

    /** The folder with the sites holds the default site and the healthy sites and nothing else, except that links to
    folders are gone; and the folder of every healthy site that is there is complete. */
    ghost predicate SitesSynced(list: seq<Site>, before: map<string, SiteEntry>, folders: map<string, SiteEntry>,
                                errors: map<string, string>, lost: seq<string>)
    {
      && (forall name :: name in folders <==>
            (name == DEFAULT || (name in Domains(list) && name !in errors)) && !LinkAt(before, name))
      && (DEFAULT in folders ==> folders[DEFAULT].SiteFolder? && folders[DEFAULT].www == Some(DEFAULT))
      && (forall i | 0 <= i < |list| && list[i].domain in folders ::
            && folders[list[i].domain].SiteFolder?
            && Complete(folders[list[i].domain], list[i], certificates(list[i]), list[i].domain !in lost))
    }

    /** A healthy site's folder is there if and only if the entry before the run was not a link to a folder. */
    lemma FolderThereIffNotLink(list: seq<Site>, before: map<string, SiteEntry>, folders: map<string, SiteEntry>,
                                errors: map<string, string>, lost: seq<string>, i: nat)
      requires SitesSynced(list, before, folders, errors, lost) && i < |list| && list[i].domain !in errors
      ensures list[i].domain in folders <==> !LinkAt(before, list[i].domain)
      ensures list[i].domain in folders && list[i].domain !in lost ==>
                Ready(folders[list[i].domain], list[i], certificates(list[i]))
    {
      DomainsMember(list, i);
    }

    /** In particular, a link is accepted as the folder of a healthy site, filled, and then taken away. */
    lemma LinkedFolderIsLost(site: Site, www: Option<string>, tls: TlsEntry, folders: map<string, SiteEntry>,
                             errors: map<string, string>, lost: seq<string>)
      requires SitesSynced([site], map[site.domain := SiteLink(www, tls)], folders, errors, lost)
      requires site.domain !in errors && site.domain != DEFAULT
      ensures folders.Keys == {DEFAULT}
    {
      FolderThereIffNotLink([site], map[site.domain := SiteLink(www, tls)], folders, errors, lost, 0);
      if name :| name in folders && name != DEFAULT {
        var i := DomainsWitness([site], name);
        assert false;
      }
    }

    /** Nothing is left to do for the folders: they are those of the listed sites, with their certificates. */
    ghost predicate AllSettled(list: seq<Site>, folders: map<string, SiteEntry>) {
      && folders.Keys == {DEFAULT} + Domains(list)
      && folders[DEFAULT].SiteFolder?
      && forall i | 0 <= i < |list| ::
           list[i].domain in folders && Settled(folders[list[i].domain], certificates(list[i]))
    }

    ghost predicate NoErrors(list: seq<Site>)
      reads health
    {
      health.errors.Keys !! Domains(list)
    }

    /** The folder of the default site, with the link to the default app. */
    method EnsureDefaultSite(ghost list: seq<Site>) returns (ok: bool, updated: bool)
      modifies this`siteFolders, this`failed
      ensures failed == old(failed) || failed == old(failed) + [DEFAULT]
      ensures ok <==> failed == old(failed) && !FileAt(old(siteFolders), DEFAULT)
      ensures siteFolders - {DEFAULT} == old(siteFolders) - {DEFAULT}
      ensures ok ==>
                && DEFAULT in siteFolders && !siteFolders[DEFAULT].SiteFile?
                && siteFolders[DEFAULT].www == Some(DEFAULT)
      ensures SameLinks(siteFolders, old(siteFolders))
      ensures !updated ==> SameWithoutLinks(siteFolders, old(siteFolders))
      ensures AllSettled(list, old(siteFolders)) && DistinctDomains(list) ==> !updated && AllSettled(list, siteFolders)
    {
      ok, updated := EnsureSiteFolder(DEFAULT);
      if ok {
        ok := ActivateApp(DEFAULT, DEFAULT);
      }
    }

    /** Some of these names have lost their health. */
    ghost predicate OnlyLost(errors0: map<string, string>, errors: map<string, string>, names: set<string>) {
      errors0.Keys <= errors.Keys <= errors0.Keys + names && forall d | d in errors0 :: errors[d] == errors0[d]
    }

    ghost predicate SameAt(a: map<string, SiteEntry>, b: map<string, SiteEntry>, name: string) {
      (name in a <==> name in b) && (name in a ==> a[name] == b[name])
    }

    /** The site had an error already, or it is blocked, or an operation for it failed. */
    ghost predicate Loses(site: Site, before: map<string, SiteEntry>, errors0: map<string, string>,
                          fails: seq<string>)
    {
      site.domain in errors0 || Blocked(site, before) || site.domain in fails
    }

    /** The health of the first n sites, in terms of what there was before and of the operations that failed; the
    others' folders and health were not touched yet. */
    ghost predicate HealthTold(list: seq<Site>, n: nat, before: map<string, SiteEntry>, errors0: map<string, string>,
                               folders: map<string, SiteEntry>, errors: map<string, string>, fails: seq<string>)
      requires n <= |list|
    {
      && (forall name | name in fails :: name in Domains(list[..n]))
      && (forall j | 0 <= j < n :: list[j].domain in errors <==> Loses(list[j], before, errors0, fails))
      && (forall j | n <= j < |list| ::
            SameAt(folders, before, list[j].domain) && (list[j].domain in errors <==> list[j].domain in errors0))
    }

    /** One site's turn is no other site's. */
    lemma OtherSitesSame(list: seq<Site>, n: nat, folders: map<string, SiteEntry>, errors: map<string, string>,
                         folders': map<string, SiteEntry>, errors': map<string, string>)
      requires n < |list| && DistinctDomains(list)
      requires folders' - {list[n].domain} == folders - {list[n].domain}
      requires errors' - {list[n].domain} == errors - {list[n].domain}
      ensures forall j | 0 <= j < |list| && j != n ::
                SameAt(folders', folders, list[j].domain) && (list[j].domain in errors' <==> list[j].domain in errors)
    {
      OthersSame(errors', errors, list[n].domain);
      OthersSame(folders', folders, list[n].domain);
      forall j | 0 <= j < |list| && j != n
        ensures SameAt(folders', folders, list[j].domain)
      {
        assert list[j].domain != list[n].domain;
      }
    }

    lemma HealthOneMore(list: seq<Site>, n: nat, before: map<string, SiteEntry>, errors0: map<string, string>,
                        folders: map<string, SiteEntry>, errors: map<string, string>, fails: seq<string>,
                        folders': map<string, SiteEntry>, errors': map<string, string>, more: seq<string>)
      requires n < |list| && DistinctDomains(list)
      requires HealthTold(list, n, before, errors0, folders, errors, fails)
      requires forall j | 0 <= j < |list| && j != n ::
                 SameAt(folders', folders, list[j].domain) && (list[j].domain in errors' <==> list[j].domain in errors)
      requires more == [] || more == [list[n].domain]
      requires list[n].domain in errors' <==> Loses(list[n], folders, errors, more)
      ensures HealthTold(list, n + 1, before, errors0, folders', errors', fails + more)
    {
      NotAmong(list, n);
      DomainsNext(list, n);
      assert SameAt(folders, before, list[n].domain);
    }

    /** Health is only lost, never regained. If no update is reported, nothing changed except links; and if all folders
    were settled before and no site fails, no update is reported. */
    method SyncSiteFolders(list: seq<Site>) returns (ok: bool, updated: bool)
      requires DistinctDomains(list) && DEFAULT !in health.errors
      modifies this`siteFolders, this`failed, this`unwritten, this`troubles, health
      ensures old(failed) <= failed && old(unwritten) <= unwritten && troubles >= old(troubles)
      ensures ok <==> troubles == old(troubles) && !FileAt(old(siteFolders), DEFAULT) &&
                      !FailedSince(failed, |old(failed)|, DEFAULT)
      ensures OnlyLost(old(health.errors), health.errors, Domains(list))
      ensures ok ==> forall i | 0 <= i < |list| ::
                list[i].domain in health.errors <==>
                Loses(list[i], old(siteFolders), old(health.errors), failed[|old(failed)|..])
      ensures ok ==> SitesSynced(list, old(siteFolders), siteFolders, health.errors, unwritten[|old(unwritten)|..])
      ensures ok && !updated && unwritten == old(unwritten) ==> SameWithoutLinks(siteFolders, old(siteFolders))
      ensures ok && AllSettled(list, old(siteFolders)) && NoErrors(list) ==>
                !updated && SameWithoutLinks(siteFolders, old(siteFolders))
    {
      ghost var before, from, lost := siteFolders, |failed|, |unwritten|;
      ok, updated := EnsureDefaultSite(list);
      if !ok {
        assert failed != old(failed) ==> failed[from..] == [DEFAULT];
        return;
      }
      DefaultNotListed(list);
      assert list[..|list|] == list;
      ghost var start := siteFolders;
      var expected, u := SyncEachSite(list);
      updated := updated || u;
      ghost var all := siteFolders;
      LosesSame(list, before, start, failed[from..]);
      if AllSettled(list, before) && NoErrors(list) {
        SettledAreExpected(list, expected, before, unwritten[lost..]);
      }
      ok, u := RemoveExtraneous(list, expected, unwritten[lost..]);
      updated := updated || u;
      if ok {
        KeptFolders(list, expected, all, before, unwritten[lost..]);
      }
    }

    /** The folder of the default site makes no difference to the others. */
    lemma LosesSame(list: seq<Site>, before: map<string, SiteEntry>, start: map<string, SiteEntry>, fails: seq<string>)
      requires DistinctDomains(list) && start - {DEFAULT} == before - {DEFAULT}
      ensures forall i, errors0 | 0 <= i < |list| ::
                Loses(list[i], start, errors0, fails) <==> Loses(list[i], before, errors0, fails)
    {
      OthersSame(start, before, DEFAULT);
    }

    /** The loop over the sites. */
    method SyncEachSite(list: seq<Site>) returns (expected: seq<string>, updated: bool)
      requires DistinctDomains(list) && DEFAULT !in health.errors
      requires DEFAULT in siteFolders && !siteFolders[DEFAULT].SiteFile? && siteFolders[DEFAULT].www == Some(DEFAULT)
      modifies this`siteFolders, this`failed, this`unwritten, health
      ensures old(failed) <= failed && old(unwritten) <= unwritten
      ensures HealthTold(list, |list|, old(siteFolders), old(health.errors), siteFolders, health.errors,
                         failed[|old(failed)|..])
      ensures OnlyLost(old(health.errors), health.errors, Domains(list))
      ensures SitesDone(list, |list|, expected, siteFolders, health.errors, unwritten[|old(unwritten)|..])
      ensures SameLinks(siteFolders, old(siteFolders))
      ensures !updated && unwritten == old(unwritten) ==> SameWithoutLinks(siteFolders, old(siteFolders))
      ensures AllSettled(list, old(siteFolders)) ==> !updated && SameWithoutLinks(siteFolders, old(siteFolders))
    {
      ghost var before, errors, from, lost := siteFolders, health.errors, |failed|, |unwritten|;
      updated, expected := false, [DEFAULT];
      for i := 0 to |list|
        invariant old(failed) <= failed && old(unwritten) <= unwritten
        invariant HealthTold(list, i, before, errors, siteFolders, health.errors, failed[from..])
        invariant OnlyLost(errors, health.errors, Domains(list[..i]))
        invariant SitesDone(list, i, expected, siteFolders, health.errors, unwritten[lost..])
        invariant SameLinks(siteFolders, before)
        invariant Unchanged(list, before, updated, lost)
      {
        expected, updated := SyncTurn(list, i, expected, updated, before, errors, from, lost);
      }
      assert list[..|list|] == list;
    }

    /** If no update is reported, only links have changed, unless a file could not be written; and where everything was
    settled, no update is reported. */
    ghost predicate Unchanged(list: seq<Site>, before: map<string, SiteEntry>, updated: bool, lost: nat)
      reads this`siteFolders, this`unwritten
    {
      && lost <= |unwritten|
      && (!updated && |unwritten| == lost ==> SameWithoutLinks(siteFolders, before))
      && (AllSettled(list, before) ==> !updated && SameWithoutLinks(siteFolders, before))
    }

    /** One turn, in terms of what there was before the loop. */
    method SyncTurn(list: seq<Site>, i: nat, expected: seq<string>, u: bool, ghost before: map<string, SiteEntry>,
                    ghost errors: map<string, string>, ghost from: nat, ghost lost: nat)
        returns (expected': seq<string>, updated: bool)
      requires i < |list| && DistinctDomains(list) && lost <= |unwritten|
      requires SitesDone(list, i, expected, siteFolders, health.errors, unwritten[lost..])
      requires from <= |failed| && HealthTold(list, i, before, errors, siteFolders, health.errors, failed[from..])
      requires OnlyLost(errors, health.errors, Domains(list[..i])) && SameLinks(siteFolders, before)
      requires Unchanged(list, before, u, lost)
      modifies this`siteFolders, this`failed, this`unwritten, health
      ensures old(failed) <= failed && old(unwritten) <= unwritten
      ensures SitesDone(list, i + 1, expected', siteFolders, health.errors, unwritten[lost..])
      ensures HealthTold(list, i + 1, before, errors, siteFolders, health.errors, failed[from..])
      ensures OnlyLost(errors, health.errors, Domains(list[..i + 1])) && SameLinks(siteFolders, before)
      ensures Unchanged(list, before, updated, lost)
    {
      ghost var now, fails, folders, missing := health.errors, failed, siteFolders, unwritten;
      SettledStill(list, i, before);
      expected', updated := SyncNextSite(list, i, expected, lost);
      updated := u || updated;
      DomainsNext(list, i);
      OtherSitesSame(list, i, folders, now, siteFolders, health.errors);
      HealthOneMore(list, i, before, errors, folders, now, fails[from..], siteFolders, health.errors,
                    failed[|fails|..]);
      assert failed[from..] == fails[from..] + failed[|fails|..];
    }

    lemma SettledStill(list: seq<Site>, i: nat, before: map<string, SiteEntry>)
      requires i < |list|
      ensures AllSettled(list, before) && SameWithoutLinks(siteFolders, before) ==>
                list[i].domain in siteFolders && Settled(siteFolders[list[i].domain], certificates(list[i]))
    {
      if AllSettled(list, before) && SameWithoutLinks(siteFolders, before) {
        var d := list[i].domain;
        assert WithoutLink(siteFolders[d]) == WithoutLink(before[d]);
      }
    }

    lemma SettledAreExpected(list: seq<Site>, expected: seq<string>, before: map<string, SiteEntry>,
                             lost: seq<string>)
      requires SitesDone(list, |list|, expected, siteFolders, health.errors, lost)
      requires AllSettled(list, before) && NoErrors(list)
      requires SameWithoutLinks(siteFolders, before)
      ensures forall name | name in siteFolders :: name in expected && siteFolders[name].SiteFolder?
    {
      forall name | name in siteFolders
        ensures name in expected && siteFolders[name].SiteFolder?
      {
        assert WithoutLink(siteFolders[name]) == WithoutLink(before[name]);
        if name != DEFAULT {
          var i := DomainsWitness(list, name);
          assert Settled(before[list[i].domain], certificates(list[i]));
        }
      }
    }

    /** One turn of the loop over the sites. A site with an error is left out. */
    method SyncNextSite(list: seq<Site>, i: nat, expected: seq<string>, ghost lost: nat)
        returns (expected': seq<string>, updated: bool)
      requires i < |list| && DistinctDomains(list) && lost <= |unwritten|
      requires SitesDone(list, i, expected, siteFolders, health.errors, unwritten[lost..])
      modifies this`siteFolders, this`failed, this`unwritten, health
      ensures old(unwritten) <= unwritten
      ensures SitesDone(list, i + 1, expected', siteFolders, health.errors, unwritten[lost..])
      ensures failed == old(failed) || failed == old(failed) + [list[i].domain]
      ensures siteFolders - {list[i].domain} == old(siteFolders) - {list[i].domain}
      ensures health.errors - {list[i].domain} == old(health.errors) - {list[i].domain}
      ensures list[i].domain in health.errors <==>
              Loses(list[i], old(siteFolders), old(health.errors), failed[|old(failed)|..])
      ensures OnlyLost(old(health.errors), health.errors, {list[i].domain})
      ensures SameLinks(siteFolders, old(siteFolders))
      ensures !updated && unwritten == old(unwritten) ==> SameWithoutLinks(siteFolders, old(siteFolders))
      ensures list[i].domain in old(siteFolders) && Settled(old(siteFolders)[list[i].domain], certificates(list[i])) ==>
                !updated && SameWithoutLinks(siteFolders, old(siteFolders))
    {
      ghost var folders, errors, missing := siteFolders, health.errors, unwritten;
      expected', updated := expected, false;
      if list[i].domain !in health.errors {
        var ready;
        ready, updated := SyncSiteFolder(list[i]);
        if ready {
          expected' := expected + [list[i].domain];
        }
        OthersSame(siteFolders, folders, list[i].domain);
        OthersSame(health.errors, errors, list[i].domain);
      }
      OneMoreDone(list, i, expected, folders, errors, missing[lost..], siteFolders, health.errors,
                  unwritten[|missing|..]);
      assert unwritten[lost..] == missing[lost..] + unwritten[|missing|..];
    }

    static lemma OthersSame<T>(now: map<string, T>, before: map<string, T>, d: string)
      requires now - {d} == before - {d}
      ensures forall name | name != d ::
                (name in before <==> name in now) && (name in before ==> now[name] == before[name])
    {
      forall name | name != d
        ensures (name in before <==> name in now) && (name in before ==> now[name] == before[name])
      {
        assert name in before <==> name in before - {d};
        assert name in now <==> name in now - {d};
        if name in before {
          assert before[name] == (before - {d})[name] == (now - {d})[name] == now[name];
        }
      }
    }

    lemma KeptFolders(list: seq<Site>, expected: seq<string>, all: map<string, SiteEntry>,
                      before: map<string, SiteEntry>, lost: seq<string>)
      requires DistinctDomains(list) && SitesKept(list, expected, all, lost) && SameLinks(all, before)
      ensures SitesSynced(list, before, siteFolders, health.errors, lost)
    {
      forall name
        ensures name in siteFolders <==>
                (name == DEFAULT || (name in Domains(list) && name !in health.errors)) && !LinkAt(before, name)
      {
        assert LinkAt(all, name) <==> LinkAt(before, name);
        if name in Domains(list) && name !in health.errors {
          var i := DomainsWitness(list, name);
        }
      }
    }

    /** What the last loop makes of folders that are done: the expected ones stay, unless they are links. */
    ghost predicate SitesKept(list: seq<Site>, expected: seq<string>, all: map<string, SiteEntry>, lost: seq<string>)
      reads this`siteFolders, health
    {
      && DEFAULT in expected && (forall name | name in expected :: name in all && !all[name].SiteFile?)
      && (forall name :: name in siteFolders <==> name in expected && all[name].SiteFolder?)
      && (forall name | name in siteFolders :: siteFolders[name] == all[name])
      && all[DEFAULT].www == Some(DEFAULT)
      && (forall name | name in expected :: name == DEFAULT || (name in Domains(list) && name !in health.errors))
      && (forall i | 0 <= i < |list| && list[i].domain !in health.errors ::
            && list[i].domain in expected
            && Complete(all[list[i].domain], list[i], certificates(list[i]), list[i].domain !in lost))
    }

    lemma NotAmong(list: seq<Site>, i: nat)
      requires i < |list| && DistinctDomains(list)
      ensures list[i].domain !in Domains(list[..i])
    {
      if list[i].domain in Domains(list[..i]) {
        var j := DomainsWitness(list[..i], list[i].domain);
        assert false;
      }
    }

    /** The last loop of SyncSiteFolders, if the folder can be listed: everything that is not an expected folder goes
    away, also an expected link to a folder. */
    method RemoveExtraneous(list: seq<Site>, expected: seq<string>, ghost lost: seq<string>)
        returns (ok: bool, updated: bool)
      requires SitesDone(list, |list|, expected, siteFolders, health.errors, lost)
      modifies this`siteFolders, this`troubles
      ensures troubles == old(troubles) + if ok then 0 else 1
      ensures ok ==> SitesKept(list, expected, old(siteFolders), lost)
      ensures !updated ==> siteFolders == old(siteFolders)
      ensures (forall name | name in old(siteFolders) :: name in expected && old(siteFolders)[name].SiteFolder?) ==>
                !updated
    {
      ghost var all := siteFolders;
      assert list[..|list|] == list;
      ok, updated := *, false;
      if !ok {
        troubles := troubles + 1;
        return;
      }
      var todo := siteFolders.Keys;
      while todo != {}
        invariant todo <= siteFolders.Keys <= all.Keys && troubles == old(troubles)
        invariant forall name | name in all && name !in todo ::
                    name in siteFolders <==> name in expected && all[name].SiteFolder?
        invariant forall name | name in siteFolders :: siteFolders[name] == all[name]
        invariant !updated ==> siteFolders == all
        invariant (forall name | name in all :: name in expected && all[name].SiteFolder?) ==> !updated
      {
        var name :| name in todo;
        todo := todo - {name};
        if siteFolders[name].SiteFolder? {
          if name !in expected {
            updated := true;
            siteFolders := siteFolders - {name};
          }
        } else {
          updated := true;
          siteFolders := siteFolders - {name};
        }
      }
    }

    /** Nobody but the sites of the list has an error, apart from those that had one before. */
    ghost predicate OnlyListed(list: seq<Site>, errors: map<string, string>)
      reads health
    {
      health.errors - Domains(list) == errors - Domains(list)
    }

    /** A worker takes a job and stages its app. A failure can leave a folder, usually half staged, and it is recorded
    for the site that asked, not for other sites with the same app. */
    method StageApp(site: Site)
      requires site.app.Some?
      modifies this`appFolders, this`failed, health
      ensures old(failed) <= failed
      ensures JobDone(site, old(appFolders), appFolders, old(health.errors), health.errors, failed[|old(failed)|..])
    {
      var staged, leftover, complete := *, *, *;
      if staged || leftover {
        appFolders := appFolders[site.app.value := AppFolder(staged || complete)];
      }
      if !staged {
        failed := failed + [site.domain];
        health.SetSiteHealth(site.domain, Some(STAGING_FAILED));
      }
    }

    ghost predicate StagingNow(list: seq<Site>, n: nat, jobs: seq<nat>, pending: set<nat>,
                               before: map<string, AppEntry>, errors: map<string, string>, from: nat)
      requires n <= |list|
      reads this`appFolders, this`failed, health
    {
      from <= |failed| && Staging(list, n, jobs, pending, before, appFolders, errors, health.errors, failed[from..])
    }

    /** The workers finish some of the pending jobs, or all of them, in any order. */
    method WorkersGoOn(list: seq<Site>, ghost n: nat, ghost jobs: seq<nat>, pending: set<nat>, all: bool,
                       ghost before: map<string, AppEntry>, ghost errors: map<string, string>, ghost from: nat)
        returns (pending': set<nat>)
      requires n <= |list| && StagingNow(list, n, jobs, pending, before, errors, from)
      modifies this`appFolders, this`failed, health
      ensures StagingNow(list, n, jobs, pending', before, errors, from) && old(failed) <= failed
      ensures all ==> pending' == {}
    {
      pending' := pending;
      while pending' != {}
        invariant StagingNow(list, n, jobs, pending', before, errors, from) && old(failed) <= failed
        decreases |pending'|
      {
        var wait: bool := *;
        if wait && !all {
          return;
        }
        var job :| job in pending';
        ghost var apps, health0, fails := appFolders, health.errors, failed;
        StageApp(list[job]);
        assert failed[from..] == fails[from..] + failed[|fails|..];
        WorkerKeepsStaging(list, n, jobs, pending', before, apps, errors, health0, fails[from..], job, appFolders,
                           health.errors, failed[|fails|..]);
        pending' := pending' - {job};
      }
    }

    /** One turn of the loop over the sites: the site's health is reset, the workers go on meanwhile, and the site's app
    is queued if it is missing and was not queued before. */
    method VisitSite(list: seq<Site>, i: nat, jobs: seq<nat>, pending: set<nat>, fetching: set<string>,
                     ghost before: map<string, AppEntry>, ghost errors: map<string, string>, ghost from: nat)
        returns (ok: bool, jobs': seq<nat>, pending': set<nat>, fetching': set<string>)
      requires i < |list| && DistinctDomains(list) && StagingNow(list, i, jobs, pending, before, errors, from)
      requires FetchOnce(list, jobs, fetching, before)
      modifies this`appFolders, this`failed, this`troubles, health
      ensures old(failed) <= failed && troubles == old(troubles) + if ok then 0 else 1
      ensures StagingNow(list, i + 1, jobs', pending', before, errors, from)
      ensures ok ==> FetchOnce(list, jobs', fetching', before)
      ensures ok ==> fetching' == fetching + if list[i].app.Some? then {list[i].app.value} - before.Keys else {}
    {
      ok, jobs', pending', fetching' := true, jobs, pending, fetching;
      ResetKeepsStaging(list, i, jobs, pending, before, appFolders, errors, health.errors, failed[from..]);
      health.SetSiteHealth(list[i].domain, None);
      pending' := WorkersGoOn(list, i + 1, jobs, pending, false, before, errors, from);
      if list[i].app.Some? {
        var readable := *;
        if !readable {
          ok, troubles := false, troubles + 1;
          return;
        }
        jobs', pending', fetching' := QueueIfMissing(list, i, jobs, pending', fetching, before, errors, from);
      }
    }

    /** The site's app is queued if it is missing and was not queued before. */
    method QueueIfMissing(list: seq<Site>, i: nat, jobs: seq<nat>, pending: set<nat>, fetching: set<string>,
                          ghost before: map<string, AppEntry>, ghost errors: map<string, string>, ghost from: nat)
        returns (jobs': seq<nat>, pending': set<nat>, fetching': set<string>)
      requires i < |list| && list[i].app.Some? && (forall job | job in jobs :: job < i)
      requires StagingNow(list, i + 1, jobs, pending, before, errors, from) && FetchOnce(list, jobs, fetching, before)
      ensures StagingNow(list, i + 1, jobs', pending', before, errors, from)
      ensures FetchOnce(list, jobs', fetching', before)
      ensures fetching' == fetching + ({list[i].app.value} - before.Keys)
    {
      jobs', pending', fetching' := jobs, pending, fetching;
      var app := list[i].app.value;
      if app !in appFolders && app !in fetching {
        FetchOneMore(list, jobs, fetching, before, i);
        QueueKeepsStaging(list, i, jobs, pending, before, appFolders, errors, health.errors, failed[from..]);
        fetching' := fetching + {app};
        jobs' := jobs + [i];
        pending' := pending + {i};
      }
    }

    /** The loop of SyncApps over the sites queues every distinct app that is missing exactly once, while the workers
    are at it. */
    method QueueMissingApps(list: seq<Site>)
        returns (ok: bool, jobs: seq<nat>, pending: set<nat>, expected: seq<string>)
      requires DistinctDomains(list)
      modifies this`appFolders, this`failed, this`troubles, health
      ensures OnlyListed(list, old(health.errors))
      ensures old(failed) <= failed && troubles == old(troubles) + if ok then 0 else 1
      ensures ok ==> StagingNow(list, |list|, jobs, pending, old(appFolders), old(health.errors), |old(failed)|)
      ensures ok ==> FetchOnce(list, jobs, AppNames(list) - old(appFolders).Keys, old(appFolders))
      ensures ok ==> forall name :: name in expected <==> name == DEFAULT || name in AppNames(list)
    {
      ghost var before, errors, from := appFolders, health.errors, |failed|;
      ok, jobs, pending, expected := true, [], {}, [DEFAULT];
      var fetching: set<string> := {};
      for i := 0 to |list|
        invariant StagingNow(list, i, jobs, pending, before, errors, from)
        invariant old(failed) <= failed && troubles == old(troubles)
        invariant FetchOnce(list, jobs, fetching, before)
        invariant fetching == AppNames(list[..i]) - before.Keys
        invariant forall name :: name in expected <==> name == DEFAULT || name in AppNames(list[..i])
      {
        ok, jobs, pending, fetching := VisitSite(list, i, jobs, pending, fetching, before, errors, from);
        if !ok {
          StagingOnlyListed(list, i + 1, jobs, pending, before, errors, from);
          return;
        }
        AppNamesNext(list, i);
        if list[i].app.Some? {
          expected := expected + [list[i].app.value];
        }
      }
      assert list[..|list|] == list;
      StagingOnlyListed(list, |list|, jobs, pending, before, errors, from);
    }

    lemma StagingOnlyListed(list: seq<Site>, n: nat, jobs: seq<nat>, pending: set<nat>, before: map<string, AppEntry>,
                            errors: map<string, string>, from: nat)
      requires n <= |list| && StagingNow(list, n, jobs, pending, before, errors, from)
      ensures OnlyListed(list, errors)
    {
      DomainsPrefix(list, n);
      var ds, more := Domains(list[..n]), Domains(list);
      assert health.errors - more == (health.errors - ds) - more;
      assert errors - more == (errors - ds) - more;
    }

    lemma DomainsPrefix(list: seq<Site>, n: nat)
      requires n <= |list|
      ensures Domains(list[..n]) <= Domains(list)
    {
      forall d | d in Domains(list[..n]) ensures d in Domains(list) {
        var i := DomainsWitness(list[..n], d);
        DomainsMember(list, i);
      }
    }

    /** The last loop of SyncApps, if the folder can be listed: unexpected folders and all files go away; a manifest
    that cannot be read or that belongs to no site is an error. */
    method RemoveExtraneousApps(expected: seq<string>) returns (ok: bool)
      modifies this`appFolders, this`troubles
      ensures troubles == old(troubles) + if ok then 0 else 1
      ensures ok ==> appFolders ==
                     map name | name in old(appFolders) && old(appFolders)[name].AppFolder? && name in expected ::
                       old(appFolders)[name]
    {
      ghost var before := appFolders;
      ok := *;
      if !ok {
        troubles := troubles + 1;
        return;
      }
      var todo := appFolders.Keys;
      while todo != {}
        invariant troubles == old(troubles)
        invariant todo <= appFolders.Keys <= before.Keys
        invariant forall name | name in appFolders :: appFolders[name] == before[name]
        invariant forall name | name in before && name !in todo ::
                    name in appFolders <==> before[name].AppFolder? && name in expected
        invariant forall name | name in todo :: name in appFolders
      {
        var name :| name in todo;
        todo := todo - {name};
        if appFolders[name].AppFolder? {
          if name !in expected {
            appFolders := appFolders - {name};
          } else {
            var manifestOk := *;
            if !manifestOk {
              troubles := troubles + 1;
              return false;
            }
          }
        } else {
          appFolders := appFolders - {name};
        }
      }
      ok := true;
    }

    /** After a successful call the folder with the apps holds folders of wanted apps only, and every wanted app is
    accounted for. Health starts afresh: an error afterwards belongs to a site whose app was missing, and none to a
    site whose app had a folder, even if that was half staged. */
    method SyncApps(list: seq<Site>) returns (ok: bool)
      requires DistinctDomains(list)
      modifies this`appFolders, this`failed, this`troubles, health
      ensures OnlyListed(list, old(health.errors))
      ensures old(failed) <= failed && troubles >= old(troubles) && (ok <==> troubles == old(troubles))
      ensures ok ==> forall d | d in Domains(list) :: d in health.errors <==> FailedSince(failed, |old(failed)|, d)
      ensures ok ==> forall name | name in appFolders ::
                appFolders[name].AppFolder? && (name == DEFAULT || name in AppNames(list))
      ensures ok ==> forall name | name in AppNames(list) ::
                Accounted(list, name, old(appFolders), appFolders, health.errors)
      ensures ok ==> forall d | d in health.errors && d in Domains(list) ::
                exists i: nat :: Misses(list, i, old(appFolders)) && list[i].domain == d
      ensures ok ==> forall i | 0 <= i < |list| && list[i].app.Some? && list[i].app.value in old(appFolders) ::
                list[i].domain !in health.errors
    {
      ghost var before, errors, from := appFolders, health.errors, |failed|;
      var jobs, pending, expected;
      ok, jobs, pending, expected := QueueMissingApps(list);
      if !ok {
        return;
      }
      pending := WorkersGoOn(list, |list|, jobs, pending, true, before, errors, from);
      StagingOnlyListed(list, |list|, jobs, pending, before, errors, from);
      assert list[..|list|] == list;
      ghost var staged := appFolders;
      forall name | name in AppNames(list) && name !in before
        ensures IsStaged(staged, name) || FetchFailed(list, name, health.errors)
      {
        assert Queued(list, jobs, name);
        var k :| 0 <= k < |jobs| && jobs[k] < |list| && list[jobs[k]].app == Some(name);
        assert jobs[k] in jobs;
      }
      forall d | d in health.errors && d in Domains(list)
        ensures exists i: nat :: Misses(list, i, before) && list[i].domain == d
      {
        assert JobOf(list, jobs, d);
      }
      forall i | 0 <= i < |list| && list[i].app.Some? && list[i].app.value in before
        ensures list[i].domain !in health.errors
      {
        DomainsMember(list, i);
      }
      ok := RemoveExtraneousApps(expected);
    }

    /** InitAppRoot, WriteDefaultApp and SyncMiscFiles can fail, and the last one can report an update and ask for a
    restart of the API server; what they write is not part of this model. */
    method SyncCommonFiles() returns (ok: bool, updated: bool, restartServer: bool)
      modifies this`commonFiles, this`troubles
      ensures troubles == old(troubles) + if ok then 0 else 1
      ensures ok ==> commonFiles == Common(updated, restartServer)
    {
      ok, updated, restartServer := *, *, *;
      commonFiles := Common(updated, restartServer);
      if !ok {
        troubles := troubles + 1;
      }
    }

    /** The state of the folders after a successful call, whichever sites failed along the way. A site has an error
    exactly if an operation for it failed in this call, something is in the place of its folders, or there is no
    certificate for it. The call fails exactly if something else failed, or the folder of the default site. */
    method SyncState(list: seq<Site>) returns (ok: bool, updated: bool, restartServer: bool)
      requires DistinctDomains(list) && DEFAULT !in health.errors
      modifies this`siteFolders, this`appFolders, this`commonFiles, this`failed, this`unwritten, this`troubles, health
      ensures old(failed) <= failed && old(unwritten) <= unwritten && troubles >= old(troubles)
      ensures ok ==> troubles == old(troubles) && !FileAt(old(siteFolders), DEFAULT)
      ensures troubles == old(troubles) && !FileAt(old(siteFolders), DEFAULT) && failed == old(failed) ==> ok
      ensures ok ==> forall i | 0 <= i < |list| ::
                list[i].domain in health.errors <==>
                FailedSince(failed, |old(failed)|, list[i].domain) || Blocked(list[i], old(siteFolders))
      ensures ok ==> SitesSynced(list, old(siteFolders), siteFolders, health.errors, unwritten[|old(unwritten)|..])
      ensures ok ==> forall name | name in AppNames(list) ::
                Accounted(list, name, old(appFolders), appFolders, health.errors)
      ensures OnlyListed(list, old(health.errors))
      ensures ok && !updated && unwritten == old(unwritten) ==> SameWithoutLinks(siteFolders, old(siteFolders))
      ensures ok ==> restartServer == commonFiles.restartServer && (commonFiles.updated ==> updated)
      ensures ok && AllSettled(list, old(siteFolders)) && NoErrors(list) ==> updated == commonFiles.updated
    {
      updated := false;
      var u;
      ok, u, restartServer := SyncCommonFiles();
      if !ok {
        return;
      }
      updated := updated || u;
      ok := SyncApps(list);
      if !ok {
        return;
      }
      DefaultNotListed(list);
      assert DEFAULT !in health.errors - Domains(list);
      ghost var fetched, fails := health.errors, failed;
      ok, u := SyncSiteFolders(list);
      updated := updated || u;
      assert health.errors - Domains(list) == fetched - Domains(list);
      if ok {
        ToldInTurn(list, old(siteFolders), fetched, fails, |old(failed)|);
      }
    }

    /** The two parts of a call together. */
    lemma ToldInTurn(list: seq<Site>, folders: map<string, SiteEntry>, fetched: map<string, string>,
                     fails: seq<string>, from: nat)
      requires from <= |fails| && fails <= failed
      requires forall d | d in Domains(list) :: d in fetched <==> FailedSince(fails, from, d)
      requires forall i | 0 <= i < |list| ::
                 list[i].domain in health.errors <==> Loses(list[i], folders, fetched, failed[|fails|..])
      ensures forall i | 0 <= i < |list| ::
                list[i].domain in health.errors <==>
                FailedSince(failed, from, list[i].domain) || Blocked(list[i], folders)
    {
      forall i | 0 <= i < |list|
        ensures list[i].domain in health.errors <==>
                FailedSince(failed, from, list[i].domain) || Blocked(list[i], folders)
      {
        DomainsMember(list, i);
        FailedInTurn(failed, fails, from, list[i].domain);
        assert list[i].domain in health.errors <==> Loses(list[i], folders, fetched, failed[|fails|..]);
      }
    }

    lemma DefaultNotListed(list: seq<Site>)
      requires DistinctDomains(list)
      ensures DEFAULT !in Domains(list)
    {
      if DEFAULT in Domains(list) {
        var i := DomainsWitness(list, DEFAULT);
        assert false;
      }
    }
  }
}
