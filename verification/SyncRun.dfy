/** One synchronisation run: first the folders, then the web server's configuration, with shared health. */
module SyncRun {
  import opened Sites
  import AppManager
  import Nginx

  /** One run: whether it returned without an error and could write every key and certificate; whether it changed the
  web server's files or the site folders (apart from links); and whether it restarted the web server. */
  datatype Turn = Turn(clean: bool, changed: bool, restarted: bool)

  /** The web server was restarted, and nothing was changed since. */
  ghost predicate UpToDate(history: seq<Turn>) {
    exists j :: 0 <= j < |history| && history[j].restarted && forall k | j < k < |history| :: !history[k].changed
  }

  /** The web server was restarted, and no run since was unclean after it had changed something. */
  ghost predicate NoFailedChange(history: seq<Turn>) {
    exists j :: 0 <= j < |history| && history[j].restarted &&
                forall k | j < k < |history| :: history[k].changed ==> history[k].clean
  }

  /** A clean run restarts the web server if it changed something. */
  ghost predicate Careful(history: seq<Turn>) {
    forall k | 0 <= k < |history| :: history[k].clean && history[k].changed ==> history[k].restarted
  }

  lemma UpToDateNext(history: seq<Turn>, t: Turn)
    ensures UpToDate(history + [t]) <==> t.restarted || (!t.changed && UpToDate(history))
  {
    var longer, n := history + [t], |history|;
    if t.restarted {
      assert longer[n].restarted;
    } else if !t.changed && UpToDate(history) {
      var j :| 0 <= j < n && history[j].restarted && forall k | j < k < n :: !history[k].changed;
      assert longer[j].restarted;
    }
    if UpToDate(longer) && !t.restarted {
      var j :| 0 <= j <= n && longer[j].restarted && forall k | j < k <= n :: !longer[k].changed;
      assert history[j].restarted;
      assert forall k | j < k < n :: history[k] == longer[k];
      assert !longer[n].changed;
    }
  }

  lemma NoFailedChangeNext(history: seq<Turn>, t: Turn)
    ensures NoFailedChange(history + [t]) <==> t.restarted || ((t.changed ==> t.clean) && NoFailedChange(history))
  {
    var longer, n := history + [t], |history|;
    if t.restarted {
      assert longer[n].restarted;
    } else if (t.changed ==> t.clean) && NoFailedChange(history) {
      var j :| 0 <= j < n && history[j].restarted && forall k | j < k < n :: history[k].changed ==> history[k].clean;
      assert longer[j].restarted;
    }
    if NoFailedChange(longer) && !t.restarted {
      var j :| 0 <= j <= n && longer[j].restarted && forall k | j < k <= n :: longer[k].changed ==> longer[k].clean;
      assert history[j].restarted;
      assert forall k | j < k < n :: history[k] == longer[k];
      assert longer[n].changed ==> longer[n].clean;
    }
  }

  /** Over every sequence of runs, the web server has what is on disk if and only if no run since its last restart was
  unclean after it had changed something. Such a change is never made good by runs that find nothing to do. */
  lemma {:induction false} UpToDateIffNoFailedChange(history: seq<Turn>)
    requires Careful(history)
    ensures UpToDate(history) <==> NoFailedChange(history)
  {
    if history != [] {
      var n := |history| - 1;
      assert history == history[..n] + [history[n]];
      UpToDateIffNoFailedChange(history[..n]);
      UpToDateNext(history[..n], history[n]);
      NoFailedChangeNext(history[..n], history[n]);
    }
  }

  class Runner {
    const manager: AppManager.Manager
    const nginx: Nginx.NginxConfig
    const health: SiteHealth
    ghost var restarts: nat // how often the web server was told to restart
    ghost var failedRestarts: nat // how often that failed
    ghost var apiRestarts: nat // how often the API server was told to restart
    ghost var history: seq<Turn>
    ghost var loadedFiles: map<Nginx.Key, Nginx.Entry> // what there was at the last restart
    ghost var loadedFolders: map<string, AppManager.SiteEntry>

    constructor (manager: AppManager.Manager, nginx: Nginx.NginxConfig)
      requires manager.health == nginx.health
      ensures this.manager == manager && this.nginx == nginx && this.health == manager.health
      ensures restarts == 0 && apiRestarts == 0 && history == []
      ensures nginx.folder.Valid() ==> Valid()
    {
      this.manager := manager;
      this.nginx := nginx;
      this.health := manager.health;
      restarts, apiRestarts, history := 0, 0, [];
    }

    predicate Wired()
      reads nginx.folder
    {
      manager.health == health && nginx.health == health && nginx.folder.Valid()
    }

    /** The web server has what is on disk. */
    ghost predicate Current()
      reads this, manager, nginx.folder
    {
      loadedFiles == nginx.folder.entries && AppManager.SameWithoutLinks(loadedFolders, manager.siteFolders)
    }

    /** The history says the truth, as long as nobody but the runs changes the files and the folders. */
    ghost predicate Valid()
      reads this, manager, nginx.folder
    {
      Wired() && Careful(history) && (UpToDate(history) ==> Current())
    }

    /** The site is served as desired: its folder, link and certificate are its own, and the web server's file
    is its rendering. */
    ghost predicate Served(site: Site)
      reads manager, nginx.folder
    {
      && site.domain in manager.siteFolders
      && AppManager.Ready(manager.siteFolders[site.domain], site, manager.certificates(site))
      && Nginx.SiteKey(site.domain) in nginx.folder.entries
      && nginx.templates.site(site).Some?
      && nginx.folder.entries[Nginx.SiteKey(site.domain)] == Nginx.File(nginx.templates.site(site).value)
    }

    method RestartServer() returns (ok: bool)
      modifies this`restarts, this`failedRestarts, this`loadedFiles, this`loadedFolders
      ensures restarts == old(restarts) + 1 && failedRestarts == old(failedRestarts) + if ok then 0 else 1
      ensures ok ==> loadedFiles == nginx.folder.entries && loadedFolders == manager.siteFolders
      ensures !ok ==> loadedFiles == old(loadedFiles) && loadedFolders == old(loadedFolders)
    {
      ok := *;
      restarts := restarts + 1;
      if ok {
        loadedFiles, loadedFolders := nginx.folder.entries, manager.siteFolders;
      } else {
        failedRestarts := failedRestarts + 1;
      }
    }

    /** The files and, apart from links, the folders are these. */
    ghost predicate AreStill(files: map<Nginx.Key, Nginx.Entry>, folders: map<string, AppManager.SiteEntry>)
      reads manager, nginx.folder
    {
      nginx.folder.entries == files && AppManager.SameWithoutLinks(manager.siteFolders, folders)
    }

    /** Records a run that began with these files and folders. */
    ghost method Record(clean: bool, restarted: bool, files: map<Nginx.Key, Nginx.Entry>,
                        folders: map<string, AppManager.SiteEntry>)
      requires Wired() && Careful(history) && (restarted ==> Current())
      requires UpToDate(history) && !restarted ==>
                 loadedFiles == files && AppManager.SameWithoutLinks(loadedFolders, folders)
      requires clean && !restarted ==> AreStill(files, folders)
      modifies this`history
      ensures Valid()
      ensures history == old(history) + [Turn(clean, !AreStill(files, folders), restarted)]
    {
      var changed := !AreStill(files, folders);
      UpToDateNext(history, Turn(clean, changed, restarted));
      history := history + [Turn(clean, changed, restarted)];
    }

    /** How many operations failed so far, except restarts. */
    ghost function Failures(): nat
      reads manager, nginx.folder
    {
      |manager.failed| + manager.troubles + nginx.folder.failures
    }

    /** A run has nothing to do: the folders are those of the sites, with their certificates, and the web server's
    files are their renderings. */
    ghost predicate Quiet(list: seq<Site>)
      reads manager, nginx.folder
    {
      && manager.AllSettled(list, manager.siteFolders)
      && nginx.templates.Renders(list, map[])
      && nginx.folder.entries == Nginx.FolderOf(nginx.templates.Desired(list, map[]))
    }

    /** Without links to folders, and with certificates that are not empty, a run that succeeds for all sites leaves
    nothing to do for the next one. */
    ghost predicate CanSettle(list: seq<Site>, folders: map<string, AppManager.SiteEntry>) {
      && (forall name | name == AppManager.DEFAULT || name in Domains(list) :: !AppManager.LinkAt(folders, name))
      && (forall i | 0 <= i < |list| && manager.certificates(list[i]).Some? ::
            var pair := manager.certificates(list[i]).value; |pair.key| > 0 && |pair.certificate| > 0)
    }

    /** Whichever sites failed along the way: a site without an error, whose key and certificate could be written, is
    served if and only if its folder was not a link to another folder before; every wanted app is accounted for;
    and every file in conf.d except the default one is that of a site without an error. */
    ghost predicate Reconciled(list: seq<Site>, folders: map<string, AppManager.SiteEntry>,
                               apps: map<string, AppManager.AppEntry>, lost: seq<string>)
      reads manager, nginx.folder, health
    {
      && (forall i | 0 <= i < |list| && list[i].domain !in health.errors && list[i].domain !in lost ::
            Served(list[i]) <==> !AppManager.LinkAt(folders, list[i].domain))
      && (forall i | 0 <= i < |list| && list[i].domain !in health.errors ::
            list[i].domain in manager.siteFolders <==> !AppManager.LinkAt(folders, list[i].domain))
      && (forall i | 0 <= i < |list| && list[i].app.Some? ::
            AppManager.Accounted(list, list[i].app.value, apps, manager.appFolders, health.errors))
      && (forall key | key in nginx.folder.entries && key.Conf? && key != Nginx.DEFAULT_CONF ::
            exists i :: 0 <= i < |list| && key == Nginx.SiteKey(list[i].domain) && list[i].domain !in health.errors)
    }

    /** The web server tested its configuration with the site's file, since the first `from` tests, and answered so. */
    ghost predicate Answered(site: Site, from: nat, accepted: bool)
      reads nginx
    {
      nginx.templates.site(site).Some? &&
      Nginx.TestedWith(nginx.tests, from, Nginx.SiteKey(site.domain), nginx.templates.site(site).value, accepted)
    }

    predicate InPlace(site: Site, files: map<Nginx.Key, Nginx.Entry>) {
      nginx.templates.site(site).Some? &&
      Nginx.InPlace(files, Nginx.SiteKey(site.domain), nginx.templates.site(site).value)
    }

    /** Why sites have an error after a run, and why not. A site has one exactly if an operation for it failed, it is
    blocked, or the web server rejected its file; the file of any other site was in place before or was accepted. */
    ghost predicate Explained(list: seq<Site>, folders: map<string, AppManager.SiteEntry>,
                              files: map<Nginx.Key, Nginx.Entry>, failures: nat, tests: nat)
      reads manager, nginx, health
    {
      forall i | 0 <= i < |list| ::
        && (list[i].domain in health.errors <==>
              || AppManager.FailedSince(manager.failed, failures, list[i].domain)
              || manager.Blocked(list[i], folders)
              || Answered(list[i], tests, false))
        && (list[i].domain !in health.errors ==> InPlace(list[i], files) || Answered(list[i], tests, true))
    }

    /** The sites that nothing blocks can be rendered, and nothing is in the place of the common folders. */
    ghost predicate CanSucceed(list: seq<Site>)
      reads manager, nginx.folder
    {
      && nginx.templates.BaseRenders() && Nginx.ConfDFree(nginx.folder.entries)
      && !AppManager.FileAt(manager.siteFolders, AppManager.DEFAULT)
      && forall i | 0 <= i < |list| && !manager.Blocked(list[i], manager.siteFolders) ::
           nginx.templates.site(list[i]).Some?
    }

    /** A run that returns without an error has reconciled the machine with the list. If the server was not restarted,
    and every key and certificate could be written, neither its files nor the site folders changed, apart from links;
    and where there was nothing to do and no site fails, it is not restarted. */
    method Run(list: seq<Site>) returns (ok: bool)
      requires Valid() && AppManager.DistinctDomains(list) && AppManager.DEFAULT !in health.errors
      modifies this, health, nginx.folder, nginx`tests
      modifies manager`siteFolders, manager`appFolders, manager`commonFiles, manager`failed,
               manager`unwritten, manager`troubles
      ensures Valid()
      ensures old(manager.unwritten) <= manager.unwritten
      ensures ok ==> Reconciled(list, old(manager.siteFolders), old(manager.appFolders),
                                manager.unwritten[|old(manager.unwritten)|..])
      ensures ok ==> Explained(list, old(manager.siteFolders), old(nginx.folder.entries), |old(manager.failed)|,
                               |old(nginx.tests)|)
      ensures Failures() == old(Failures()) && failedRestarts == old(failedRestarts) && old(CanSucceed(list)) ==> ok
      ensures ok ==> restarts <= old(restarts) + 1
      ensures ok && restarts == old(restarts) && manager.unwritten == old(manager.unwritten) ==>
                AreStill(old(nginx.folder.entries), old(manager.siteFolders))
      ensures ok && old(Quiet(list)) && manager.NoErrors(list) && !manager.commonFiles.updated ==>
                restarts == old(restarts)
      ensures ok && CanSettle(list, old(manager.siteFolders)) && manager.NoErrors(list) ==>
                (manager.unwritten == old(manager.unwritten) ==> Quiet(list))
      ensures ok ==> apiRestarts == old(apiRestarts) + if manager.commonFiles.restartServer then 1 else 0
      ensures var clean := ok && manager.unwritten == old(manager.unwritten);
              var changed := !AreStill(old(nginx.folder.entries), old(manager.siteFolders));
              history == old(history) + [Turn(clean, changed, ok && restarts > old(restarts))]
      ensures UpToDate(history) <==> NoFailedChange(history)
    {
      ghost var files, folders, written := nginx.folder.entries, manager.siteFolders, manager.unwritten;
      var restartRequired, restartServer;
      ok, restartRequired, restartServer := Reconcile(list);
      ok := Conclude(ok, restartRequired, restartServer, files, folders, manager.unwritten == written);
    }

    /** The restarts that a run asks for, at its end. */
    method Conclude(reconciled: bool, restartRequired: bool, restartServer: bool,
                    ghost files: map<Nginx.Key, Nginx.Entry>, ghost folders: map<string, AppManager.SiteEntry>,
                    ghost written: bool)
        returns (ok: bool)
      requires Wired() && Careful(history)
      requires UpToDate(history) ==> loadedFiles == files && AppManager.SameWithoutLinks(loadedFolders, folders)
      requires reconciled && written && !restartRequired ==> AreStill(files, folders)
      modifies this
      ensures Valid()
      ensures ok <==> reconciled && failedRestarts == old(failedRestarts)
      ensures failedRestarts >= old(failedRestarts)
      ensures reconciled ==> restarts == old(restarts) + if restartRequired then 1 else 0
      ensures apiRestarts == old(apiRestarts) + if ok && restartServer then 1 else 0
      ensures history == old(history) + [Turn(ok && written, !AreStill(files, folders), ok && restarts > old(restarts))]
      ensures UpToDate(history) <==> NoFailedChange(history)
    {
      ok := reconciled;
      if ok && restartRequired {
        ok := RestartServer();
      }
      Record(ok && written, ok && restartRequired, files, folders);
      UpToDateIffNoFailedChange(history);
      if ok && restartServer {
        apiRestarts := apiRestarts + 1;
      }
    }

    /** The two reconcilers, one after the other. */
    method Reconcile(list: seq<Site>) returns (ok: bool, restartRequired: bool, restartServer: bool)
      requires Wired() && AppManager.DistinctDomains(list) && AppManager.DEFAULT !in health.errors
      modifies health, nginx.folder, nginx`tests
      modifies manager`siteFolders, manager`appFolders, manager`commonFiles, manager`failed,
               manager`unwritten, manager`troubles
      ensures Wired()
      ensures old(manager.unwritten) <= manager.unwritten
      ensures ok ==> Reconciled(list, old(manager.siteFolders), old(manager.appFolders),
                                manager.unwritten[|old(manager.unwritten)|..])
      ensures ok ==> Explained(list, old(manager.siteFolders), old(nginx.folder.entries), |old(manager.failed)|,
                               |old(nginx.tests)|)
      ensures Failures() == old(Failures()) && old(CanSucceed(list)) ==> ok
      ensures ok && !restartRequired && manager.unwritten == old(manager.unwritten) ==>
                AreStill(old(nginx.folder.entries), old(manager.siteFolders))
      ensures ok && old(Quiet(list)) && manager.NoErrors(list) && !manager.commonFiles.updated ==> !restartRequired
      ensures ok && CanSettle(list, old(manager.siteFolders)) && manager.NoErrors(list) ==>
                (manager.unwritten == old(manager.unwritten) ==> Quiet(list))
      ensures ok ==> restartServer == manager.commonFiles.restartServer
    {
      ghost var folders, apps, quiet := manager.siteFolders, manager.appFolders, Quiet(list);
      ghost var files, tests, fails := nginx.folder.entries, |nginx.tests|, |manager.failed|;
      ghost var lost := |manager.unwritten|;
      ok, restartRequired, restartServer := manager.SyncState(list);
      if !ok {
        return;
      }
      ghost var errors := health.errors;
      BecomesRendered(list, folders, errors, fails);
      if quiet && manager.NoErrors(list) {
        QuietSyncs(list);
      }
      var updated;
      ok, updated := nginx.SyncConfiguration(list);
      if !ok {
        return;
      }
      restartRequired := restartRequired || updated;
      BecomesReconciled(list, folders, apps, errors, manager.unwritten[lost..]);
      BecomesExplained(list, folders, files, errors, fails, tests);
      if CanSettle(list, folders) && manager.NoErrors(list) && |manager.unwritten| == lost {
        BecomesQuiet(list, folders, errors);
      }
    }

    /** Without failures for sites, the web server's part finds only sites that nothing blocks. */
    lemma BecomesRendered(list: seq<Site>, folders: map<string, AppManager.SiteEntry>, errors: map<string, string>,
                          fails: nat)
      requires fails <= |manager.failed|
      requires forall i | 0 <= i < |list| ::
                 list[i].domain in errors <==>
                 AppManager.FailedSince(manager.failed, fails, list[i].domain) || manager.Blocked(list[i], folders)
      ensures |manager.failed| == fails && nginx.templates.BaseRenders() &&
              (forall i | 0 <= i < |list| && !manager.Blocked(list[i], folders) ::
                 nginx.templates.site(list[i]).Some?) ==>
                nginx.templates.Renders(list, errors)
    {
    }

    lemma BecomesExplained(list: seq<Site>, folders: map<string, AppManager.SiteEntry>,
                           files: map<Nginx.Key, Nginx.Entry>, errors: map<string, string>, fails: nat, tests: nat)
      requires Wired() && AppManager.DistinctDomains(list)
      requires nginx.templates.Renders(list, errors) && errors.Keys <= health.errors.Keys
      requires forall i | 0 <= i < |list| ::
                 list[i].domain in errors <==>
                 AppManager.FailedSince(manager.failed, fails, list[i].domain) || manager.Blocked(list[i], folders)
      requires Nginx.Vetted(nginx.tests, tests, {}, nginx.templates.Desired(list, errors), files,
                            health.errors.Keys - errors.Keys)
      ensures Explained(list, folders, files, fails, tests)
    {
      forall i | 0 <= i < |list|
        ensures list[i].domain in health.errors <==>
                || AppManager.FailedSince(manager.failed, fails, list[i].domain)
                || manager.Blocked(list[i], folders)
                || Answered(list[i], tests, false)
        ensures list[i].domain !in health.errors ==> InPlace(list[i], files) || Answered(list[i], tests, true)
      {
        if list[i].domain !in errors {
          assert Nginx.DomainOf(Nginx.DEFAULT_CONF) == AppManager.DEFAULT;
          Nginx.DomainOfSiteKey(list[i].domain);
          nginx.SiteIsVetted(list, files, errors, tests, i);
        }
      }
    }

    lemma BecomesReconciled(list: seq<Site>, folders: map<string, AppManager.SiteEntry>,
                            apps: map<string, AppManager.AppEntry>, errors: map<string, string>, lost: seq<string>)
      requires Wired() && AppManager.DistinctDomains(list) && errors.Keys <= health.errors.Keys
      requires nginx.templates.Renders(list, health.errors) && nginx.Synced(list)
      requires manager.SitesSynced(list, folders, manager.siteFolders, errors, lost)
      requires forall name | name in AppManager.AppNames(list) ::
                 AppManager.Accounted(list, name, apps, manager.appFolders, errors)
      ensures Reconciled(list, folders, apps, lost)
    {
      AppManager.AllAccounted(list, apps, manager.appFolders, errors, health.errors);
      forall i | 0 <= i < |list| && list[i].domain !in health.errors
        ensures list[i].domain !in lost ==> (Served(list[i]) <==> !AppManager.LinkAt(folders, list[i].domain))
        ensures list[i].domain in manager.siteFolders <==> !AppManager.LinkAt(folders, list[i].domain)
      {
        ServedIffNotLink(list, folders, errors, lost, i);
      }
      forall key | key in nginx.folder.entries && key.Conf? && key != Nginx.DEFAULT_CONF
        ensures exists i :: 0 <= i < |list| && key == Nginx.SiteKey(list[i].domain) && list[i].domain !in health.errors
      {
        var i := SiteOfFile(list, key);
      }
    }

    /** A site whose app was half staged before is served all the same, with the app as it was left. */
    lemma HalfStagedIsServed(list: seq<Site>, folders: map<string, AppManager.SiteEntry>,
                             apps: map<string, AppManager.AppEntry>, lost: seq<string>, i: nat)
      requires Reconciled(list, folders, apps, lost) && i < |list| && list[i].app.Some?
      requires list[i].domain !in health.errors && list[i].domain !in lost
      requires !AppManager.LinkAt(folders, list[i].domain)
      requires AppManager.IsHalfStaged(apps, list[i].app.value)
      ensures Served(list[i]) && AppManager.IsHalfStaged(manager.appFolders, list[i].app.value)
    {
    }

    /** What the web server's part finds in sync before it starts. */
    lemma QuietSyncs(list: seq<Site>)
      requires Wired() && nginx.templates.Renders(list, map[]) && manager.NoErrors(list)
      requires nginx.folder.entries == Nginx.FolderOf(nginx.templates.Desired(list, map[]))
      ensures nginx.templates.Renders(list, health.errors) && nginx.Synced(list)
    {
      NoErrorsAtAll(list);
      nginx.templates.DesiredSame(list, map[], health.errors);
    }

    lemma NoErrorsAtAll(list: seq<Site>)
      requires manager.NoErrors(list) && manager.health == health
      ensures forall i | 0 <= i < |list| :: list[i].domain !in health.errors
    {
      forall i | 0 <= i < |list|
        ensures list[i].domain !in health.errors
      {
        DomainsMember(list, i);
      }
    }

    /** The two reconcilers agree: a site that is healthy after both is served, unless its folder was a link. */
    lemma ServedIffNotLink(list: seq<Site>, before: map<string, AppManager.SiteEntry>, errors: map<string, string>,
                           lost: seq<string>, i: nat)
      requires i < |list| && AppManager.DistinctDomains(list)
      requires nginx.health == health && nginx.templates.Renders(list, health.errors) && nginx.Synced(list)
      requires manager.SitesSynced(list, before, manager.siteFolders, errors, lost)
      requires errors.Keys <= health.errors.Keys && list[i].domain !in health.errors
      ensures list[i].domain in manager.siteFolders <==> !AppManager.LinkAt(before, list[i].domain)
      ensures list[i].domain !in lost ==> (Served(list[i]) <==> !AppManager.LinkAt(before, list[i].domain))
    {
      manager.FolderThereIffNotLink(list, before, manager.siteFolders, errors, lost, i);
      nginx.templates.DesiredContent(list, health.errors, i);
    }

    lemma BecomesQuiet(list: seq<Site>, before: map<string, AppManager.SiteEntry>, errors: map<string, string>)
      requires Wired() && nginx.templates.Renders(list, health.errors) && nginx.Synced(list) && manager.NoErrors(list)
      requires manager.SitesSynced(list, before, manager.siteFolders, errors, []) && errors.Keys <= health.errors.Keys
      requires CanSettle(list, before)
      ensures Quiet(list)
    {
      NoErrorsAtAll(list);
      nginx.templates.DesiredSame(list, health.errors, map[]);
      forall i | 0 <= i < |list|
        ensures list[i].domain in manager.siteFolders
        ensures AppManager.Settled(manager.siteFolders[list[i].domain], manager.certificates(list[i]))
      {
        DomainsMember(list, i);
        manager.FolderThereIffNotLink(list, before, manager.siteFolders, errors, [], i);
      }
    }

    lemma SiteOfFile(list: seq<Site>, key: Nginx.Key) returns (i: nat)
      requires nginx.health == health && nginx.templates.Renders(list, health.errors) && nginx.Synced(list)
      requires key in nginx.folder.entries && key.Conf? && key != Nginx.DEFAULT_CONF
      ensures i < |list| && key == Nginx.SiteKey(list[i].domain) && list[i].domain !in health.errors
    {
      nginx.templates.DesiredShape(list, health.errors);
      var d := Nginx.DomainOf(key);
      assert d in Nginx.HealthyDomains(list, health.errors);
      i := DomainsWitness(list, d);
    }
  }
}
