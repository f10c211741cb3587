/** Reconciliation of the web server's configuration folder with the list of sites. */
module Nginx {
  import opened Options
  import opened Sites

  type Content = string

  /** A path below the configuration folder: an entry of the folder itself, or one of its folder conf.d. */
  datatype Key = Root(name: string) | Conf(name: string)

  const CONF_D := Root("conf.d")
  const NGINX_CONF := Root("nginx.conf")
  const MIME_TYPES := Root("mime.types")
  const DEFAULT_CONF := Conf("_default.conf")
  const BASE_KEYS := {NGINX_CONF, MIME_TYPES, DEFAULT_CONF}
  const EXTENSION := ".conf"
  const INVALID_CONFIG := "invalid nginx configuration - check manifest"

  function SiteKey(domain: string): Key {
    Conf(domain + EXTENSION)
  }

  /** The domain of a site's file is its name without the extension. */
  function DomainOf(key: Key): string {
    if |key.name| >= |EXTENSION| then key.name[..|key.name| - |EXTENSION|] else ""
  }

  lemma DomainOfSiteKey(domain: string)
    ensures DomainOf(SiteKey(domain)) == domain
  {
  }

  /** A folder stands for everything in it. */
  datatype Entry = File(content: Content) | Folder

  function HealthyDomains(sites: seq<Site>, errors: map<string, string>): set<string> {
    Domains(sites) - errors.Keys
  }

  function SiteKeys(domains: set<string>): set<Key> {
    set d | d in domains :: SiteKey(d)
  }

  lemma SiteKeysMember(domains: set<string>, d: string)
    ensures SiteKey(d) in SiteKeys(domains) <==> d in domains
  {
    forall e | e in domains && SiteKey(e) == SiteKey(d) ensures e == d {
      DomainOfSiteKey(d);
      DomainOfSiteKey(e);
    }
  }

  lemma SiteKeysAreSites(domains: set<string>)
    ensures forall key | key in SiteKeys(domains) :: DomainOf(key) in domains && key == SiteKey(DomainOf(key))
  {
    forall key | key in SiteKeys(domains) ensures DomainOf(key) in domains && key == SiteKey(DomainOf(key)) {
      var d :| d in domains && key == SiteKey(d);
      DomainOfSiteKey(d);
    }
  }

  /** Rendering is a fixed function of the template and the site; None is an error or an empty result. */
  datatype Templates = Templates(nginxConf: Option<Content>, mimeTypes: Option<Content>, defaultSite: Option<Content>,
                                 site: Site -> Option<Content>)
  {
    predicate BaseRenders() {
      nginxConf.Some? && mimeTypes.Some? && defaultSite.Some?
    }

    predicate Renders(sites: seq<Site>, errors: map<string, string>) {
      BaseRenders() && forall i | 0 <= i < |sites| && sites[i].domain !in errors :: site(sites[i]).Some?
    }

    /** The files of the desired configuration: the common ones, and one for every healthy site. */
    function Desired(sites: seq<Site>, errors: map<string, string>): (files: map<Key, Content>)
      requires Renders(sites, errors)
    {
      if sites == [] then
        map[NGINX_CONF := nginxConf.value, MIME_TYPES := mimeTypes.value, DEFAULT_CONF := defaultSite.value]
      else
        var n := |sites| - 1;
        var files := Desired(sites[..n], errors);
        if sites[n].domain in errors then files else files[SiteKey(sites[n].domain) := site(sites[n]).value]
    }

    lemma {:induction false} DesiredKeys(sites: seq<Site>, errors: map<string, string>)
      requires Renders(sites, errors)
      ensures Desired(sites, errors).Keys == BASE_KEYS + SiteKeys(HealthyDomains(sites, errors))
    {
      if sites == [] {
        assert Domains(sites) == {};
      } else {
        var n := |sites| - 1;
        DesiredKeys(sites[..n], errors);
        if sites[n].domain in errors {
          assert HealthyDomains(sites, errors) == HealthyDomains(sites[..n], errors);
        } else {
          assert HealthyDomains(sites, errors) == HealthyDomains(sites[..n], errors) + {sites[n].domain};
        }
      }
    }

    /** Every desired file is a common one or the file of a healthy site. */
    lemma DesiredShape(sites: seq<Site>, errors: map<string, string>)
      requires Renders(sites, errors)
      ensures CONF_D !in Desired(sites, errors) && DEFAULT_CONF in Desired(sites, errors)
      ensures forall key | key in Desired(sites, errors) ::
                IsSiteKey(key, HealthyDomains(sites, errors)) || key in BASE_KEYS
    {
      DesiredKeys(sites, errors);
      SiteKeysAreSites(HealthyDomains(sites, errors));
    }

    /** With distinct domains every healthy site's file has that site's rendering. */
    lemma {:induction false} DesiredContent(sites: seq<Site>, errors: map<string, string>, i: nat)
      requires Renders(sites, errors)
      requires i < |sites| && sites[i].domain !in errors
      requires forall j, k | 0 <= j < k < |sites| :: sites[j].domain != sites[k].domain
      ensures SiteKey(sites[i].domain) in Desired(sites, errors)
      ensures Desired(sites, errors)[SiteKey(sites[i].domain)] == site(sites[i]).value
    {
      var n := |sites| - 1;
      DomainOfSiteKey(sites[i].domain);
      DomainOfSiteKey(sites[n].domain);
      if i < n {
        DesiredContent(sites[..n], errors, i);
      }
    }

    /** Only the errors of the sites themselves matter. */
    lemma {:induction false} DesiredSame(sites: seq<Site>, errors: map<string, string>, other: map<string, string>)
      requires Renders(sites, errors)
      requires forall i | 0 <= i < |sites| :: sites[i].domain in errors <==> sites[i].domain in other
      ensures Renders(sites, other) && Desired(sites, other) == Desired(sites, errors)
    {
      if sites != [] {
        DesiredSame(sites[..|sites| - 1], errors, other);
      }
    }

    /** Marking more sites as broken takes exactly their files out of the desired configuration. */
    lemma {:induction false} DesiredWithout(sites: seq<Site>, errors: map<string, string>, more: map<string, string>)
      requires Renders(sites, errors) && errors.Keys <= more.Keys
      requires "_default" in more ==> "_default" in errors
      ensures Renders(sites, more)
      ensures Desired(sites, more) == Desired(sites, errors) - SiteKeys(more.Keys - errors.Keys)
    {
      var broken := more.Keys - errors.Keys;
      assert SiteKey("_default") == DEFAULT_CONF;
      SiteKeysMember(broken, "_default");
      if sites == [] {
      } else {
        var n := |sites| - 1;
        DesiredWithout(sites[..n], errors, more);
        SiteKeysMember(broken, sites[n].domain);
      }
    }
  }

  /** What the scan of the folder leaves in place: the folder conf.d and the expected files. */
  predicate Keep(key: Key, entry: Entry, expected: set<Key>) {
    if key == CONF_D then entry.Folder? else key in expected && entry.File?
  }

  function Kept(entries: map<Key, Entry>, expected: set<Key>): map<Key, Entry> {
    map key | key in entries && Keep(key, entries[key], expected) :: entries[key]
  }

  /** Neither the clean-up nor the making of conf.d changes an expected file. */
  lemma KeptInPlace(before: map<Key, Entry>, after: map<Key, Entry>, desired: map<Key, Content>)
    requires after == before || after == before[CONF_D := Folder]
    requires CONF_D !in desired
    ensures forall key | key in desired ::
              InPlace(Kept(after, desired.Keys), key, desired[key]) <==> InPlace(before, key, desired[key])
  {
  }

  function RootKeys(entries: map<Key, Entry>): set<Key> {
    set key | key in entries && key.Root?
  }

  /** The folder that holds exactly these files. */
  function FolderOf(files: map<Key, Content>): map<Key, Entry> {
    (map key | key in files :: File(files[key]))[CONF_D := Folder]
  }

  /** The file belongs to no site, or it is the file of the site it is named after. */
  predicate HasSiteName(key: Key) {
    key !in BASE_KEYS ==> key == SiteKey(DomainOf(key))
  }

  predicate IsSiteKey(key: Key, domains: set<string>) {
    key !in BASE_KEYS && DomainOf(key) in domains && HasSiteName(key)
  }

  /** The errors with these domains marked as well. */
  function Marked(errors: map<string, string>, bad: set<string>): map<string, string> {
    errors + map d | d in bad :: INVALID_CONFIG
  }

  /** What the loop over the desired files has done to the health: the domains whose files failed the
  configuration test are bad, and their files were looked at. */
  ghost predicate HealthProgress(now: map<string, string>, todo: set<Key>, desired: map<Key, Content>,
                                 errors: map<string, string>, bad: set<string>)
  {
    && now == Marked(errors, bad)
    && (forall d | d in bad :: SiteKey(d) in desired && SiteKey(d) !in BASE_KEYS && SiteKey(d) !in todo)
  }

  /** What it has done to the folder: `todo` are the files it has not looked at. */
  ghost predicate FileProgress(entries: map<Key, Entry>, todo: set<Key>, desired: map<Key, Content>,
                               kept: map<Key, Entry>, bad: set<string>)
  {
    && CONF_D in entries && entries[CONF_D].Folder?
    && entries.Keys <= desired.Keys + {CONF_D}
    && (forall key | key in desired && key in todo ::
          (key in entries <==> key in kept) && (key in kept ==> entries[key] == kept[key]))
    && (forall key | key in desired && key !in todo ::
          if key !in BASE_KEYS && DomainOf(key) in bad then key !in entries
          else key in entries && entries[key] == File(desired[key]))
  }

  ghost predicate Progress(entries: map<Key, Entry>, now: map<string, string>, todo: set<Key>,
                           desired: map<Key, Content>, kept: map<Key, Entry>, errors: map<string, string>,
                           bad: set<string>)
  {
    FileProgress(entries, todo, desired, kept, bad) && HealthProgress(now, todo, desired, errors, bad)
  }

  /** One more file has its desired content. */
  lemma ProgressWritten(entries: map<Key, Entry>, now: map<string, string>, todo: set<Key>, desired: map<Key, Content>,
                        kept: map<Key, Entry>, errors: map<string, string>, bad: set<string>, key: Key)
    requires Progress(entries, now, todo, desired, kept, errors, bad)
    requires key in todo && key in desired && CONF_D !in desired && HasSiteName(key)
    ensures Progress(entries[key := File(desired[key])], now, todo - {key}, desired, kept, errors, bad)
  {
    assert key !in BASE_KEYS ==> DomainOf(key) !in bad;
  }

  lemma HealthRemoved(now: map<string, string>, todo: set<Key>, desired: map<Key, Content>,
                      errors: map<string, string>, bad: set<string>, key: Key)
    requires HealthProgress(now, todo, desired, errors, bad)
    requires key in todo && key in desired && key !in BASE_KEYS && HasSiteName(key)
    ensures HealthProgress(now[DomainOf(key) := INVALID_CONFIG], todo - {key}, desired, errors, bad + {DomainOf(key)})
    ensures DomainOf(key) !in bad
  {
    var x := DomainOf(key);
    assert x !in bad;
    assert Marked(errors, bad + {x}) == Marked(errors, bad)[x := INVALID_CONFIG];
  }

  lemma FileRemoved(entries: map<Key, Entry>, todo: set<Key>, desired: map<Key, Content>,
                    kept: map<Key, Entry>, bad: set<string>, key: Key)
    requires FileProgress(entries, todo, desired, kept, bad)
    requires key in todo && key in desired && CONF_D !in desired && key !in BASE_KEYS
    requires forall k | k in desired :: HasSiteName(k)
    ensures FileProgress(entries - {key}, todo - {key}, desired, kept, bad + {DomainOf(key)})
  {
    forall k | k in desired && k !in todo - {key}
      ensures if k !in BASE_KEYS && DomainOf(k) in bad + {DomainOf(key)} then k !in entries - {key}
              else k in entries - {key} && (entries - {key})[k] == File(desired[k])
    {
      assert HasSiteName(k) && HasSiteName(key);
    }
  }

  /** One more file was removed, and its domain is bad. */
  lemma ProgressRemoved(entries: map<Key, Entry>, now: map<string, string>, todo: set<Key>, desired: map<Key, Content>,
                        kept: map<Key, Entry>, errors: map<string, string>, bad: set<string>, key: Key)
    requires Progress(entries, now, todo, desired, kept, errors, bad)
    requires key in todo && key in desired && CONF_D !in desired && key !in BASE_KEYS
    requires forall k | k in desired :: HasSiteName(k)
    ensures Progress(entries - {key}, now[DomainOf(key) := INVALID_CONFIG], todo - {key}, desired, kept, errors,
                     bad + {DomainOf(key)})
    ensures DomainOf(key) !in bad
  {
    assert HasSiteName(key);
    HealthRemoved(now, todo, desired, errors, bad, key);
    FileRemoved(entries, todo, desired, kept, bad, key);
  }

  /** With every file looked at, the folder holds the desired files without those of the bad domains. */
  lemma FinishedFolder(entries: map<Key, Entry>, now: map<string, string>, desired: map<Key, Content>,
                       kept: map<Key, Entry>, errors: map<string, string>, bad: set<string>)
    requires Progress(entries, now, {}, desired, kept, errors, bad) && CONF_D !in desired
    requires forall key | key in desired && key !in BASE_KEYS :: key == SiteKey(DomainOf(key))
    ensures entries == FolderOf(desired - SiteKeys(bad))
  {
    SiteKeysAreSites(bad);
    forall key | key in desired
      ensures key in SiteKeys(bad) <==> key !in BASE_KEYS && DomainOf(key) in bad
    {
      SiteKeysMember(bad, DomainOf(key));
    }
  }

  /** One test of the configuration by the server, for one file that was written: the folder as it was then, and the
  answer; None is an error. */
  datatype Tested = Tested(key: Key, files: map<Key, Entry>, answer: Option<bool>)

  predicate InPlace(entries: map<Key, Entry>, key: Key, content: Content) {
    key in entries && entries[key] == File(content)
  }

  predicate Answered(t: Tested, key: Key, content: Content, accepted: bool) {
    t.key == key && InPlace(t.files, key, content) && t.answer == Some(accepted)
  }

  /** Some test since the first `from` ones was for this file, had it with this content, and gave this answer. */
  ghost predicate TestedWith(tests: seq<Tested>, from: nat, key: Key, content: Content, accepted: bool) {
    exists k :: from <= k < |tests| && Answered(tests[k], key, content, accepted)
  }

  /** The sites' files that were looked at and had another content, or none. */
  function Changed(todo: set<Key>, desired: map<Key, Content>, kept: map<Key, Entry>): set<Key> {
    set key | key in desired && key !in todo && key !in BASE_KEYS && !InPlace(kept, key, desired[key])
  }

  function TestedKeys(tests: seq<Tested>, from: nat): set<Key> {
    set k | from <= k < |tests| :: tests[k].key
  }

  /** The test was for a desired file, with its content, and the answer was no exactly if its domain is bad. */
  predicate AnswerCounts(t: Tested, desired: map<Key, Content>, bad: set<string>) {
    t.key in desired && Answered(t, t.key, desired[t.key], DomainOf(t.key) !in bad)
  }

  /** The tests after the first `from` ones are one for every site's file that was changed, with its new content, and
  its domain is bad exactly if the answer was no; a file that was in place is not bad. */
  ghost predicate Vetted(tests: seq<Tested>, from: nat, todo: set<Key>, desired: map<Key, Content>,
                         kept: map<Key, Entry>, bad: set<string>)
  {
    && TestedKeys(tests, from) == Changed(todo, desired, kept)
    && |tests| == from + |Changed(todo, desired, kept)|
    && (forall k | from <= k < |tests| :: AnswerCounts(tests[k], desired, bad))
    && (forall key | key in desired && key !in todo && key !in BASE_KEYS && InPlace(kept, key, desired[key]) ::
          DomainOf(key) !in bad)
  }

  /** One more file was looked at that needed no test. */
  lemma VettedUntested(tests: seq<Tested>, from: nat, todo: set<Key>, desired: map<Key, Content>,
                       kept: map<Key, Entry>, errors: map<string, string>, now: map<string, string>,
                       bad: set<string>, key: Key)
    requires Vetted(tests, from, todo, desired, kept, bad) && HealthProgress(now, todo, desired, errors, bad)
    requires key in todo && key in desired && HasSiteName(key)
    requires key in BASE_KEYS || InPlace(kept, key, desired[key])
    ensures Vetted(tests, from, todo - {key}, desired, kept, bad)
  {
    assert Changed(todo - {key}, desired, kept) == Changed(todo, desired, kept);
    assert key !in BASE_KEYS ==> DomainOf(key) !in bad;
  }

  lemma ChangedOneMore(todo: set<Key>, desired: map<Key, Content>, kept: map<Key, Entry>, key: Key)
    requires key in todo && key in desired && key !in BASE_KEYS && !InPlace(kept, key, desired[key])
    ensures Changed(todo - {key}, desired, kept) == Changed(todo, desired, kept) + {key}
    ensures key !in Changed(todo, desired, kept)
  {
  }

  lemma TestedOneMore(tests: seq<Tested>, from: nat, t: Tested)
    requires from <= |tests|
    ensures TestedKeys(tests + [t], from) == TestedKeys(tests, from) + {t.key}
  {
    var more := tests + [t];
    forall key | key in TestedKeys(tests, from) + {t.key} ensures key in TestedKeys(more, from) {
      if key == t.key {
        assert more[|tests|].key == key;
      } else {
        var k :| from <= k < |tests| && tests[k].key == key;
        assert more[k].key == key;
      }
    }
  }

  /** Another domain is bad: that changes nothing for the other sites' files. */
  lemma OtherFilesSame(desired: map<Key, Content>, bad: set<string>, key: Key)
    requires key in desired && key !in BASE_KEYS && forall k | k in desired :: HasSiteName(k)
    ensures forall k | k in desired && k != key && k !in BASE_KEYS ::
              DomainOf(k) in bad + {DomainOf(key)} <==> DomainOf(k) in bad
  {
    assert HasSiteName(key);
    forall k | k in desired && k != key && k !in BASE_KEYS
      ensures DomainOf(k) in bad + {DomainOf(key)} <==> DomainOf(k) in bad
    {
      assert HasSiteName(k);
    }
  }

  /** One more test: the others count as before. */
  lemma AnswersStillCount(tests: seq<Tested>, from: nat, desired: map<Key, Content>, bad: set<string>, key: Key,
                          accepted: bool)
    requires key in desired && key !in BASE_KEYS && forall k | k in desired :: HasSiteName(k)
    requires forall i | from <= i < |tests| ::
               AnswerCounts(tests[i], desired, bad) && tests[i].key != key && tests[i].key !in BASE_KEYS
    ensures forall i | from <= i < |tests| ::
              AnswerCounts(tests[i], desired, if accepted then bad else bad + {DomainOf(key)})
  {
    OtherFilesSame(desired, bad, key);
  }

  /** One more file was changed and tested. */
  lemma VettedTested(tests: seq<Tested>, from: nat, todo: set<Key>, desired: map<Key, Content>,
                     kept: map<Key, Entry>, errors: map<string, string>, now: map<string, string>,
                     bad: set<string>, key: Key, t: Tested, accepted: bool)
    requires Vetted(tests, from, todo, desired, kept, bad) && HealthProgress(now, todo, desired, errors, bad)
    requires key in todo && key in desired && key !in BASE_KEYS && !InPlace(kept, key, desired[key])
    requires forall k | k in desired :: HasSiteName(k)
    requires Answered(t, key, desired[key], accepted)
    ensures Vetted(tests + [t], from, todo - {key}, desired, kept, if accepted then bad else bad + {DomainOf(key)})
  {
    ChangedOneMore(todo, desired, kept, key);
    TestedOneMore(tests, from, t);
    OtherFilesSame(desired, bad, key);
    assert HasSiteName(key) && DomainOf(key) !in bad;
    forall i | from <= i < |tests|
      ensures tests[i].key != key && tests[i].key !in BASE_KEYS
    {
      assert tests[i].key in TestedKeys(tests, from);
    }
    AnswersStillCount(tests, from, desired, bad, key, accepted);
  }

  /** Only what was in place before matters. */
  lemma VettedSame(tests: seq<Tested>, from: nat, desired: map<Key, Content>, kept: map<Key, Entry>,
                   before: map<Key, Entry>, bad: set<string>)
    requires Vetted(tests, from, {}, desired, kept, bad)
    requires forall key | key in desired ::
               InPlace(kept, key, desired[key]) <==> InPlace(before, key, desired[key])
    ensures Vetted(tests, from, {}, desired, before, bad)
  {
    assert Changed({}, desired, kept) == Changed({}, desired, before);
  }

  predicate ConfDFree(entries: map<Key, Entry>) {
    CONF_D in entries ==> entries[CONF_D].Folder?
  }

  /** The configuration folder on disk. Every operation can fail, and a failed write can leave anything behind
  in the file it was for. */
  class ConfigFolder {
    var entries: map<Key, Entry>
    ghost var failures: nat // how often an operation failed so far

    /** Only a folder has something in it. */
    predicate Valid()
      reads this
    {
      (forall key | key in entries :: key.Conf? ==> CONF_D in entries && entries[CONF_D].Folder?)
    }

    constructor ()
      ensures entries == map[] && Valid()
    {
      entries := map[];
    }

    method EnsureConfD() returns (ok: bool)
      requires Valid()
      modifies this
      ensures Valid()
      ensures failures >= old(failures)
      ensures ok <==> failures == old(failures) && ConfDFree(old(entries))
      ensures ok ==> CONF_D in entries && entries[CONF_D].Folder?
      ensures ok ==> entries == old(entries) || (CONF_D !in old(entries) && entries == old(entries)[CONF_D := Folder])
      ensures !ok ==> entries == old(entries)
    {
      ok := true;
      if CONF_D !in entries {
        ok := *;
        if ok {
          entries := entries[CONF_D := Folder];
        } else {
          failures := failures + 1;
        }
      } else if entries[CONF_D].File? {
        ok := false;
      }
    }

    method ReadFile(key: Key) returns (content: Option<Content>)
      requires key in entries && entries[key].File?
      modifies this`failures
      ensures failures == old(failures) + if content.Some? then 0 else 1
      ensures content == None || content == Some(entries[key].content)
    {
      var readable := *;
      content := if readable then Some(entries[key].content) else None;
      if !readable {
        failures := failures + 1;
      }
    }

    method Remove(key: Key) returns (ok: bool)
      requires Valid() && key != CONF_D
      modifies this
      ensures Valid()
      ensures failures == old(failures) + if ok then 0 else 1
      ensures entries == if ok then old(entries) - {key} else old(entries)
    {
      ok := *;
      if ok {
        entries := entries - {key};
      } else {
        failures := failures + 1;
      }
    }

    method WriteFile(key: Key, content: Content) returns (ok: bool)
      requires Valid() && key != CONF_D && CONF_D in entries && entries[CONF_D].Folder?
      modifies this
      ensures Valid()
      ensures failures == old(failures) + if ok then 0 else 1
      ensures ok ==> entries == old(entries)[key := File(content)]
      ensures !ok ==> entries - {key} == old(entries) - {key}
    {
      ok := *;
      if ok {
        entries := entries[key := File(content)];
      } else {
        var written: Content := *;
        entries := entries[key := File(written)];
        failures := failures + 1;
      }
    }
  }

  class NginxConfig {
    const templates: Templates
    const folder: ConfigFolder
    const health: SiteHealth
    ghost var tests: seq<Tested> // the tests so far

    constructor (templates: Templates, folder: ConfigFolder, health: SiteHealth)
      ensures this.templates == templates && this.folder == folder && this.health == health
    {
      this.templates := templates;
      this.folder := folder;
      this.health := health;
    }

    /** The folder is what the healthy sites ask for, and nothing else. */
    predicate Synced(sites: seq<Site>)
      reads folder, health
      requires templates.Renders(sites, health.errors)
    {
      folder.entries == FolderOf(templates.Desired(sites, health.errors))
    }

    /** None is an error. */
    method DesiredConfiguration(sites: seq<Site>) returns (config: Option<map<Key, Content>>)
      ensures config.Some? <==> templates.Renders(sites, health.errors)
      ensures config.Some? ==> config.value == templates.Desired(sites, health.errors)
    {
      if templates.nginxConf.None? || templates.mimeTypes.None? || templates.defaultSite.None? {
        return None;
      }
      var files: map<Key, Content> := map[];
      files := files[NGINX_CONF := templates.nginxConf.value];
      files := files[MIME_TYPES := templates.mimeTypes.value];
      files := files[DEFAULT_CONF := templates.defaultSite.value];
      for i := 0 to |sites|
        invariant templates.Renders(sites[..i], health.errors)
        invariant files == templates.Desired(sites[..i], health.errors)
      {
        assert sites[..i + 1][..i] == sites[..i];
        assert forall j | 0 <= j < i :: sites[..i + 1][j] == sites[..i][j];
        if sites[i].domain !in health.errors {
          var content := templates.site(sites[i]);
          if content.None? {
            return None;
          }
          files := files[SiteKey(sites[i].domain) := content.value];
        }
      }
      assert sites[..|sites|] == sites;
      return Some(files);
    }

    ghost function Expected(sites: seq<Site>): set<Key>
      reads health
    {
      BASE_KEYS + SiteKeys(HealthyDomains(sites, health.errors))
    }

    /** What the scan of some part of the folder found: the part holds what is kept, and its files were read. */
    ghost predicate Scanned(part: set<Key>, before: map<Key, Entry>, expected: set<Key>,
                            existing: map<Key, Option<Content>>)
      reads folder
    {
      && (forall key | key in part && key in before :: key in folder.entries <==> Keep(key, before[key], expected))
      && (forall key | key in part && key in folder.entries && folder.entries[key].File? ::
            key in existing && existing[key] == Some(folder.entries[key].content))
    }

    /** While a scan runs, entries are removed and never changed. */
    ghost predicate Shrinks(before: map<Key, Entry>, updated: bool)
      reads folder
    {
      && folder.Valid() && CONF_D in folder.entries && folder.entries[CONF_D].Folder?
      && folder.entries.Keys <= before.Keys
      && (forall key | key in folder.entries :: folder.entries[key] == before[key])
      && (updated <==> folder.entries != before)
    }

    /** Reads the expected files and removes everything else. An expected file that is missing has no content. */
    method ExistingConfiguration(sites: seq<Site>)
        returns (ok: bool, existing: map<Key, Option<Content>>, updated: bool)
      requires folder.Valid() && CONF_D in folder.entries && folder.entries[CONF_D].Folder?
      modifies folder
      ensures folder.Valid()
      ensures folder.failures >= old(folder.failures) && (ok <==> folder.failures == old(folder.failures))
      ensures ok ==> folder.entries == Kept(old(folder.entries), Expected(sites))
      ensures ok ==> (updated <==> folder.entries != old(folder.entries))
      ensures ok ==> forall key | key in Expected(sites) ::
                if key in folder.entries then key in existing && existing[key] == Some(folder.entries[key].content)
                else key !in existing || existing[key].None?
    {
      ghost var before := folder.entries;
      ok, existing, updated := ScanRoot(Expected(sites));
      if ok {
        existing := ExpectConfFiles(sites, existing);
        ok, existing, updated := ScanConfD(existing, updated, before, Expected(sites));
        if ok {
          ScanIsComplete(before, Expected(sites), existing, updated);
        }
      }
    }

    lemma ScanIsComplete(before: map<Key, Entry>, expected: set<Key>, existing: map<Key, Option<Content>>,
                         updated: bool)
      requires Shrinks(before, updated) && Scanned(before.Keys, before, expected, existing) && CONF_D !in expected
      requires forall key | key in existing :: key in folder.entries || existing[key].None?
      ensures folder.entries == Kept(before, expected)
      ensures forall key | key in expected ::
                if key in folder.entries then key in existing && existing[key] == Some(folder.entries[key].content)
                else key !in existing || existing[key].None?
    {
    }

    /** One entry of a scan: an expected file is read, everything else is removed. */
    method ReadOrRemove(key: Key, expected: bool, files: map<Key, Option<Content>>, u: bool,
                        ghost before: map<Key, Entry>)
        returns (ok: bool, existing: map<Key, Option<Content>>, updated: bool)
      requires Shrinks(before, u) && key in folder.entries && key != CONF_D
      modifies folder
      ensures folder.Valid()
      ensures folder.failures >= old(folder.failures) && (ok <==> folder.failures == old(folder.failures))
      ensures ok ==> Shrinks(before, updated)
      ensures ok ==>
                if expected && old(folder.entries)[key].File?
                then folder.entries == old(folder.entries) && existing == files[key := Some(before[key].content)]
                else folder.entries == old(folder.entries) - {key} && existing == files
    {
      ok, existing, updated := true, files, u;
      if expected && folder.entries[key].File? {
        var content := folder.ReadFile(key);
        ok := content.Some?;
        existing := existing[key := content];
      } else {
        updated := true;
        ok := folder.Remove(key);
      }
    }

    /** One turn of a scan. */
    method ScanEntry(key: Key, wanted: bool, files: map<Key, Option<Content>>, u: bool, ghost before: map<Key, Entry>,
                     ghost done: set<Key>, ghost expected: set<Key>)
        returns (ok: bool, existing: map<Key, Option<Content>>, updated: bool)
      requires Shrinks(before, u) && key in folder.entries && key != CONF_D && key !in done
      requires Scanned(done, before, expected, files) && (wanted <==> key in expected)
      modifies folder
      ensures folder.Valid()
      ensures folder.failures >= old(folder.failures) && (ok <==> folder.failures == old(folder.failures))
      ensures ok ==> Shrinks(before, updated) && Scanned(done + {key}, before, expected, existing)
      ensures ok ==> folder.entries == old(folder.entries) || folder.entries == old(folder.entries) - {key}
      ensures ok ==> existing == files || (key in folder.entries && existing == files[key := Some(before[key].content)])
    {
      ok, existing, updated := ReadOrRemove(key, wanted, files, u, before);
    }

    /** There should be one folder and two files in the configuration folder. */
    method ScanRoot(ghost expected: set<Key>) returns (ok: bool, existing: map<Key, Option<Content>>, updated: bool)
      requires folder.Valid() && CONF_D in folder.entries && folder.entries[CONF_D].Folder?
      requires forall key: Key | key.Root? :: key in expected <==> key == NGINX_CONF || key == MIME_TYPES
      modifies folder
      ensures folder.Valid()
      ensures folder.failures >= old(folder.failures) && (ok <==> folder.failures == old(folder.failures))
      ensures ok ==> Shrinks(old(folder.entries), updated)
      ensures ok ==> Scanned(RootKeys(old(folder.entries)), old(folder.entries), expected, existing)
      ensures ok ==> forall key | key in old(folder.entries) && key.Conf? :: key in folder.entries
      ensures ok ==> forall key | key in existing :: key.Root? && key in folder.entries
    {
      ghost var before := folder.entries;
      ok, existing, updated := false, map[], false;
      var todo := set key | key in folder.entries && key.Root?;
      ghost var done: set<Key> := {};
      while todo != {}
        invariant Shrinks(before, updated) && folder.failures == old(folder.failures)
        invariant done + todo == RootKeys(before) && done !! todo
        invariant Scanned(done, before, expected, existing)
        invariant forall key | key in before && (key.Conf? || key in todo) :: key in folder.entries
        invariant forall key | key in existing :: key in done && key in folder.entries
      {
        var key :| key in todo;
        todo := todo - {key};
        if !(key == CONF_D && folder.entries[key].Folder?) {
          var wanted := key == NGINX_CONF || key == MIME_TYPES;
          ok, existing, updated := ScanEntry(key, wanted, existing, updated, before, done, expected);
          if !ok {
            return;
          }
        }
        done := done + {key};
      }
      ok := true;
    }

    /** In conf.d there should be the file of the default site, and those of the healthy sites. */
    method ScanConfD(files: map<Key, Option<Content>>, u: bool, ghost before: map<Key, Entry>, ghost expected: set<Key>)
        returns (ok: bool, existing: map<Key, Option<Content>>, updated: bool)
      requires Shrinks(before, u) && Scanned(RootKeys(before), before, expected, files)
      requires forall key | key in before && key.Conf? :: key in folder.entries
      requires forall key: Key | key.Conf? :: key in files <==> key in expected
      requires forall key | key in files && (key.Conf? || key !in folder.entries) :: files[key].None?
      modifies folder
      ensures folder.Valid()
      ensures folder.failures >= old(folder.failures) && (ok <==> folder.failures == old(folder.failures))
      ensures ok ==> Shrinks(before, updated)
      ensures ok ==> Scanned(before.Keys, before, expected, existing)
      ensures ok ==> forall key | key in existing :: key in folder.entries || existing[key].None?
    {
      ok, existing, updated := false, files, u;
      var todo := set key | key in folder.entries && key.Conf?;
      ghost var done := RootKeys(before);
      while todo != {}
        invariant Shrinks(before, updated) && folder.failures == old(folder.failures)
        invariant done + todo == before.Keys && todo !! done
        invariant Scanned(done, before, expected, existing)
        invariant forall key | key in todo :: key.Conf? && key in folder.entries
        invariant existing.Keys == files.Keys
        invariant forall key | key in existing && (key in todo || key !in folder.entries) :: existing[key].None?
      {
        var key :| key in todo;
        todo := todo - {key};
        ok, existing, updated := ScanEntry(key, key in existing, existing, updated, before, done, expected);
        if !ok {
          return;
        }
        done := done + {key};
      }
      ok := true;
    }

    /** Adds the names of the files to expect in conf.d, without content. */
    method ExpectConfFiles(sites: seq<Site>, rootFiles: map<Key, Option<Content>>)
        returns (existing: map<Key, Option<Content>>)
      requires forall key | key in rootFiles :: key.Root?
      ensures forall key | key in existing :: existing[key] == if key in rootFiles then rootFiles[key] else None
      ensures existing.Keys == rootFiles.Keys + {DEFAULT_CONF} + SiteKeys(HealthyDomains(sites, health.errors))
    {
      existing := rootFiles[DEFAULT_CONF := None];
      assert Domains(sites[..0]) == {};
      for i := 0 to |sites|
        invariant forall key | key in existing :: existing[key] == if key in rootFiles then rootFiles[key] else None
        invariant existing.Keys == rootFiles.Keys + {DEFAULT_CONF} + SiteKeys(HealthyDomains(sites[..i], health.errors))
      {
        assert sites[..i + 1][..i] == sites[..i];
        if sites[i].domain !in health.errors {
          assert HealthyDomains(sites[..i + 1], health.errors)
              == HealthyDomains(sites[..i], health.errors) + {sites[i].domain};
          existing := existing[SiteKey(sites[i].domain) := None];
        } else {
          assert HealthyDomains(sites[..i + 1], health.errors) == HealthyDomains(sites[..i], health.errors);
        }
      }
      assert sites[..|sites|] == sites;
    }

    /** The server's own test of the configuration can answer anything at any time; None is an error. */
    method ConfigTest(ghost key: Key) returns (answer: Option<bool>)
      modifies this`tests, folder`failures
      ensures tests == old(tests) + [Tested(key, folder.entries, answer)]
      ensures folder.failures == old(folder.failures) + if answer.Some? then 0 else 1
    {
      answer := *;
      tests := tests + [Tested(key, folder.entries, answer)];
      if !answer.Some? {
        folder.failures := folder.failures + 1;
      }
    }

    method MarkBroken(sites: seq<Site>, domain: string)
      modifies health
      ensures health.errors ==
              if domain in Domains(sites) then old(health.errors)[domain := INVALID_CONFIG] else old(health.errors)
    {
      for i := 0 to |sites|
        invariant health.errors == old(health.errors)
        invariant domain !in Domains(sites[..i])
      {
        assert sites[..i + 1][..i] == sites[..i];
        if sites[i].domain == domain {
          DomainsMember(sites, i);
          health.SetSiteHealth(domain, Some(INVALID_CONFIG));
          return;
        }
      }
      assert sites[..|sites|] == sites;
    }

    /** Brings one file to its desired content. A site's file that was changed is tested with the rest of the folder;
    if it fails the test it is removed again, and the site gets an error. */
    method SyncFile(key: Key, content: Content, existing: Option<Content>, sites: seq<Site>)
        returns (ok: bool, written: bool)
      requires folder.Valid() && CONF_D in folder.entries && folder.entries[CONF_D].Folder? && key != CONF_D
      requires key !in BASE_KEYS ==> key.Conf? && DomainOf(key) in Domains(sites)
      modifies folder, health, this`tests
      ensures folder.Valid()
      ensures folder.failures >= old(folder.failures) && (ok <==> folder.failures == old(folder.failures))
      ensures ok ==> (written <==> existing != Some(content))
      ensures ok && !written ==> folder.entries == old(folder.entries)
      ensures ok && (!written || key in BASE_KEYS) ==> tests == old(tests) && health.errors == old(health.errors)
      ensures ok && written && key in BASE_KEYS ==> folder.entries == old(folder.entries)[key := File(content)]
      ensures ok && written && key !in BASE_KEYS ==>
                var files := old(folder.entries)[key := File(content)];
                exists accepted ::
                  && tests == old(tests) + [Tested(key, files, Some(accepted))]
                  && folder.entries == (if accepted then files else old(folder.entries) - {key})
                  && health.errors ==
                       if accepted then old(health.errors) else old(health.errors)[DomainOf(key) := INVALID_CONFIG]
    {
      ok, written := true, false;
      if existing.Some? {
        if existing.value != content {
          written := true;
          ok := folder.WriteFile(key, content);
        }
      } else {
        written := true;
        ok := folder.WriteFile(key, content);
      }
      if ok && written && key.Conf? && key != DEFAULT_CONF {
        var answer := ConfigTest(key);
        if answer.None? {
          return false, written;
        }
        if !answer.value {
          MarkBroken(sites, DomainOf(key));
          ok := folder.Remove(key);
        }
      }
    }

    /** What the scan found of the desired files. */
    ghost predicate Found(entries: map<Key, Entry>, desired: map<Key, Content>, existing: map<Key, Option<Content>>) {
      forall key | key in desired ::
        if key in entries
        then entries[key].File? && key in existing && existing[key] == Some(entries[key].content)
        else key !in existing || existing[key].None?
    }

    function ContentIn(existing: map<Key, Option<Content>>, key: Key): Option<Content> {
      if key in existing then existing[key] else None
    }

    /** The content found in a file that has not been looked at is the content it has. */
    lemma FoundContent(entries: map<Key, Entry>, todo: set<Key>, desired: map<Key, Content>,
                       existing: map<Key, Option<Content>>, kept: map<Key, Entry>, bad: set<string>, key: Key)
      requires FileProgress(entries, todo, desired, kept, bad) && Found(kept, desired, existing)
      requires key in todo && key in desired
      ensures ContentIn(existing, key) == Some(desired[key]) <==> key in kept && kept[key] == File(desired[key])
      ensures ContentIn(existing, key) == Some(desired[key]) ==> entries[key := File(desired[key])] == entries
    {
      if key in kept && kept[key] == File(desired[key]) {
        assert key in entries && entries[key] == File(desired[key]);
      }
    }

    /** One turn of the loop of SyncConfiguration. */
    method SyncNext(key: Key, sites: seq<Site>, desired: map<Key, Content>, existing: map<Key, Option<Content>>,
                    ghost from: nat, ghost todo: set<Key>, ghost kept: map<Key, Entry>,
                    ghost errors: map<string, string>, ghost bad: set<string>, ghost domains: set<string>)
        returns (ok: bool, written: bool, ghost bad': set<string>)
      requires folder.Valid() && CONF_D !in desired && key in todo && todo <= desired.Keys
      requires Progress(folder.entries, health.errors, todo, desired, kept, errors, bad)
      requires Vetted(tests, from, todo, desired, kept, bad)
      requires Found(kept, desired, existing)
      requires forall k | k in desired :: IsSiteKey(k, domains) || k in BASE_KEYS
      requires domains <= Domains(sites)
      modifies folder, health, this`tests
      ensures folder.Valid()
      ensures folder.failures >= old(folder.failures) && (ok <==> folder.failures == old(folder.failures))
      ensures ok ==> Progress(folder.entries, health.errors, todo - {key}, desired, kept, errors, bad')
      ensures ok ==> Vetted(tests, from, todo - {key}, desired, kept, bad') && old(tests) <= tests
      ensures ok ==> bad' <= bad + domains
      ensures ok && !written ==> folder.entries == old(folder.entries) && bad' == bad && key in kept
      ensures ok && InPlace(kept, key, desired[key]) ==> !written
    {
      ghost var entries, now, was := folder.entries, health.errors, tests;
      bad' := bad;
      FoundContent(entries, todo, desired, existing, kept, bad, key);
      assert HasSiteName(key);
      ok, written := SyncFile(key, desired[key], ContentIn(existing, key), sites);
      if ok && written && key !in BASE_KEYS {
        ghost var accepted :|
          && tests == was + [Tested(key, entries[key := File(desired[key])], Some(accepted))]
          && folder.entries == (if accepted then entries[key := File(desired[key])] else entries - {key})
          && health.errors == if accepted then now else now[DomainOf(key) := INVALID_CONFIG];
        VettedTested(was, from, todo, desired, kept, errors, now, bad, key, tests[|was|], accepted);
        if accepted {
          ProgressWritten(entries, now, todo, desired, kept, errors, bad, key);
        } else {
          ProgressRemoved(entries, now, todo, desired, kept, errors, bad, key);
          bad' := bad + {DomainOf(key)};
        }
      } else if ok {
        ProgressWritten(entries, now, todo, desired, kept, errors, bad, key);
        VettedUntested(was, from, todo, desired, kept, errors, now, bad, key);
        assert folder.entries == entries[key := File(desired[key])];
      }
    }

    /** The loop of SyncConfiguration: every desired file is brought to its content, in any order. */
    method SyncFiles(sites: seq<Site>, desired: map<Key, Content>, existing: map<Key, Option<Content>>, u: bool,
                     ghost domains: set<string>)
        returns (ok: bool, updated: bool, ghost bad: set<string>)
      requires folder.Valid() && CONF_D in folder.entries && folder.entries[CONF_D].Folder? && CONF_D !in desired
      requires folder.entries.Keys <= desired.Keys + {CONF_D}
      requires forall key | key in desired :: IsSiteKey(key, domains) || key in BASE_KEYS
      requires domains <= Domains(sites)
      requires Found(folder.entries, desired, existing)
      modifies folder, health, this`tests
      ensures folder.Valid()
      ensures ok ==> Progress(folder.entries, health.errors, {}, desired, old(folder.entries), old(health.errors), bad)
      ensures folder.failures >= old(folder.failures) && (ok <==> folder.failures == old(folder.failures))
      ensures ok ==> bad <= domains && old(tests) <= tests
      ensures ok ==> Vetted(tests, |old(tests)|, {}, desired, old(folder.entries), bad)
      ensures ok && !updated ==>
                !u && folder.entries == old(folder.entries) && bad == {} && desired.Keys <= old(folder.entries).Keys
      ensures ok && old(folder.entries) == FolderOf(desired) ==> updated == u
    {
      ghost var kept, errors := folder.entries, health.errors;
      bad := {};
      ok, updated := true, u;
      assert Changed(desired.Keys, desired, kept) == {} == TestedKeys(tests, |tests|);
      var todo := desired.Keys;
      while todo != {}
        invariant folder.Valid() && todo <= desired.Keys
        invariant Progress(folder.entries, health.errors, todo, desired, kept, errors, bad)
        invariant folder.failures == old(folder.failures)
        invariant Vetted(tests, |old(tests)|, todo, desired, kept, bad)
        invariant bad <= domains && old(tests) <= tests
        invariant !updated ==> !u && folder.entries == kept && bad == {}
        invariant !updated ==> forall key | key in desired && key !in todo :: key in kept
        invariant kept == FolderOf(desired) ==> updated == u
      {
        var key :| key in todo;
        var written;
        ok, written, bad := SyncNext(key, sites, desired, existing, |old(tests)|, todo, kept, errors, bad, domains);
        if !ok {
          return;
        }
        updated := updated || written;
        todo := todo - {key};
      }
    }

    /** When every desired file was looked at, the folder is in sync with the health recorded meanwhile. */
    lemma LoopSyncs(sites: seq<Site>, kept: map<Key, Entry>, errors: map<string, string>, bad: set<string>)
      requires templates.Renders(sites, errors)
      requires bad <= HealthyDomains(sites, errors)
      requires Progress(folder.entries, health.errors, {}, templates.Desired(sites, errors), kept, errors, bad)
      ensures templates.Renders(sites, health.errors) && Synced(sites)
      ensures health.errors.Keys - errors.Keys == bad && health.errors == Marked(errors, bad)
    {
      var desired := templates.Desired(sites, errors);
      MarkedKeys(errors, bad);
      templates.DesiredShape(sites, errors);
      FinishedFolder(folder.entries, health.errors, desired, kept, errors, bad);
      NotDefault(desired, health.errors, errors, bad);
      templates.DesiredWithout(sites, errors, health.errors);
    }

    /** What that says of one site that was healthy: its file was in place already, or it was tested with the site's
    rendering in it, and the site is healthy exactly if the server accepted it. */
    lemma SiteIsVetted(sites: seq<Site>, before: map<Key, Entry>, errors: map<string, string>, from: nat, i: nat)
      requires templates.Renders(sites, errors) && i < |sites| && sites[i].domain !in errors
      requires forall j, k | 0 <= j < k < |sites| :: sites[j].domain != sites[k].domain
      requires SiteKey(sites[i].domain) != DEFAULT_CONF
      requires Vetted(tests, from, {}, templates.Desired(sites, errors), before, health.errors.Keys - errors.Keys)
      ensures var key, content := SiteKey(sites[i].domain), templates.site(sites[i]).value;
              if InPlace(before, key, content) then sites[i].domain !in health.errors
              else TestedWith(tests, from, key, content, sites[i].domain !in health.errors)
      ensures var key, content := SiteKey(sites[i].domain), templates.site(sites[i]).value;
              sites[i].domain in health.errors <==> TestedWith(tests, from, key, content, false)
    {
      var key := SiteKey(sites[i].domain);
      templates.DesiredContent(sites, errors, i);
      DomainOfSiteKey(sites[i].domain);
      assert key !in BASE_KEYS;
      var content := templates.site(sites[i]).value;
      assert key in Changed({}, templates.Desired(sites, errors), before) <==> !InPlace(before, key, content);
      if key in TestedKeys(tests, from) {
        var k :| from <= k < |tests| && tests[k].key == key;
        assert AnswerCounts(tests[k], templates.Desired(sites, errors), health.errors.Keys - errors.Keys);
        assert Answered(tests[k], key, content, sites[i].domain !in health.errors);
      }
      if TestedWith(tests, from, key, content, false) {
        var k :| from <= k < |tests| && Answered(tests[k], key, content, false);
        assert AnswerCounts(tests[k], templates.Desired(sites, errors), health.errors.Keys - errors.Keys);
        assert key in TestedKeys(tests, from);
      }
    }

    static lemma MarkedNone(errors: map<string, string>)
      ensures Marked(errors, {}) == errors
    {
    }

    static lemma MarkedKeys(errors: map<string, string>, bad: set<string>)
      requires bad !! errors.Keys
      ensures Marked(errors, bad).Keys - errors.Keys == bad
    {
    }

    /** The default site is never marked as broken. */
    static lemma NotDefault(desired: map<Key, Content>, now: map<string, string>, errors: map<string, string>,
                            bad: set<string>)
      requires HealthProgress(now, {}, desired, errors, bad)
      ensures "_default" in now ==> "_default" in errors
    {
      assert SiteKey("_default") == DEFAULT_CONF;
    }

    /** Makes the folder conf.d, and clears the configuration folder of everything that is not expected. */
    method Prepare(sites: seq<Site>, ghost desired: map<Key, Content>)
        returns (ok: bool, existing: map<Key, Option<Content>>, updated: bool)
      requires folder.Valid()
      requires templates.Renders(sites, health.errors) && desired == templates.Desired(sites, health.errors)
      modifies folder
      ensures folder.Valid()
      ensures folder.failures >= old(folder.failures)
      ensures ok <==> folder.failures == old(folder.failures) && ConfDFree(old(folder.entries))
      ensures ok ==> CONF_D in folder.entries && folder.entries[CONF_D].Folder?
      ensures ok ==> folder.entries.Keys <= desired.Keys + {CONF_D}
      ensures ok ==> forall key | key in desired ::
                InPlace(folder.entries, key, desired[key]) <==> InPlace(old(folder.entries), key, desired[key])
      ensures ok ==> Found(folder.entries, desired, existing)
      ensures ok && !updated && DEFAULT_CONF in folder.entries ==> folder.entries == old(folder.entries)
      ensures ok && old(folder.entries) == FolderOf(desired) ==> !updated && folder.entries == old(folder.entries)
    {
      ghost var before := folder.entries;
      templates.DesiredKeys(sites, health.errors);
      existing, updated := map[], false;
      ok := folder.EnsureConfD();
      if ok {
        KeptInPlace(before, folder.entries, desired);
        ok, existing, updated := ExistingConfiguration(sites);
        assert ok && before == FolderOf(desired) ==> folder.entries == before;
      }
    }

    /** SyncConfiguration, once the desired configuration is known. */
    method SyncDesired(sites: seq<Site>, desired: map<Key, Content>) returns (ok: bool, updated: bool)
      requires folder.Valid()
      requires templates.Renders(sites, health.errors) && desired == templates.Desired(sites, health.errors)
      modifies folder, health, this`tests
      ensures folder.Valid()
      ensures folder.failures >= old(folder.failures)
      ensures ok <==> folder.failures == old(folder.failures) && ConfDFree(old(folder.entries))
      ensures ok ==> templates.Renders(sites, health.errors) && Synced(sites)
      ensures ok ==> var bad := health.errors.Keys - old(health.errors).Keys;
                && bad <= HealthyDomains(sites, old(health.errors))
                && health.errors == Marked(old(health.errors), bad)
                && Vetted(tests, |old(tests)|, {}, desired, old(folder.entries), bad)
      ensures ok ==> old(tests) <= tests
      ensures ok && !updated ==> folder.entries == old(folder.entries) && health.errors == old(health.errors)
      ensures ok && old(folder.entries) == FolderOf(desired) ==> !updated
    {
      ghost var errors, before := health.errors, folder.entries;
      templates.DesiredShape(sites, errors);
      var existing;
      ok, existing, updated := Prepare(sites, desired);
      if !ok {
        return;
      }
      ghost var kept, bad, from := folder.entries, {}, |tests|;
      ok, updated, bad := SyncFiles(sites, desired, existing, updated, HealthyDomains(sites, errors));
      if ok {
        LoopSyncs(sites, kept, errors, bad);
        VettedSame(tests, from, desired, kept, before, bad);
        if !updated {
          MarkedNone(errors);
          assert DEFAULT_CONF in kept;
          assert health.errors == errors && folder.entries == kept;
        }
      }
    }

    /** A successful call leaves exactly the desired files of the sites that are healthy afterwards. Every site's file
    that was not in place was tested once with its new content, and those sites have lost their health whose test
    failed. If it reports no update nothing changed, and when the folder was already in sync it reports no update. It
    succeeds exactly if everything renders, conf.d can be a folder, and no operation fails. */
    method SyncConfiguration(sites: seq<Site>) returns (ok: bool, updated: bool)
      requires folder.Valid()
      modifies folder, health, this`tests
      ensures folder.Valid()
      ensures !templates.Renders(sites, old(health.errors)) ==> !ok && folder.entries == old(folder.entries)
      ensures folder.failures >= old(folder.failures)
      ensures ok <==> templates.Renders(sites, old(health.errors)) && ConfDFree(old(folder.entries)) &&
                      folder.failures == old(folder.failures)
      ensures ok ==> templates.Renders(sites, health.errors) && Synced(sites)
      ensures ok ==> var bad := health.errors.Keys - old(health.errors).Keys;
                && bad <= HealthyDomains(sites, old(health.errors))
                && health.errors == Marked(old(health.errors), bad)
                && Vetted(tests, |old(tests)|, {}, templates.Desired(sites, old(health.errors)), old(folder.entries),
                          bad)
      ensures ok ==> old(tests) <= tests
      ensures ok && !updated ==> folder.entries == old(folder.entries) && health.errors == old(health.errors)
      ensures ok && templates.Renders(sites, old(health.errors)) && old(Synced(sites)) ==> !updated
    {
      var config := DesiredConfiguration(sites);
      if config.None? {
        return false, false;
      }
      ok, updated := SyncDesired(sites, config.value);
    }
  }
}
