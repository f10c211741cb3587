/** The requests on the site table, carried out step by step. Each request is handled on its own. */
module SiteApi {
  import opened Options
  import opened Sites
  import opened Runes
  import opened SiteTable

  /** NotSaved: the change was made in memory, and writing the state failed. */
  datatype Outcome = Done | Unhealthy | NotLocked | NotFound | NotSaved
  {
    predicate Changed() {
      Done? || NotSaved?
    }
  }

  class Manager {
    var sites: seq<Site>
    ghost var stored: seq<Site> // what the store was given last, if it took it
    ghost var failures: nat // how often the store was not healthy, or did not give the lock, or was not written

    constructor (sites: seq<Site>)
      ensures this.sites == sites
    {
      this.sites := sites;
    }

    method GetSite(name: string) returns (r: Option<Site>)
      ensures r == Resolve(sites, name)
    {
      var i := 0;
      while i < |sites|
        invariant i <= |sites|
        invariant forall j | 0 <= j < i :: !HasName(sites[j], name)
      {
        if sites[i].domain == name || name in sites[i].aliases {
          return Some(sites[i]);
        }
        i := i + 1;
      }
      r := None;
    }

    /** Whether the store is healthy and gives the lock is not under the manager's control. */
    method Lock() returns (outcome: Outcome)
      modifies this`failures
      ensures outcome.Done? || outcome.Unhealthy? || outcome.NotLocked?
      ensures failures == old(failures) + if outcome.Done? then 0 else 1
    {
      var healthy, locked: bool := *, *;
      outcome := if !healthy then Unhealthy else if !locked then NotLocked else Done;
      if !outcome.Done? {
        failures := failures + 1;
      }
    }

    method WriteState() returns (outcome: Outcome)
      modifies this`stored, this`failures
      ensures outcome.Changed()
      ensures failures == old(failures) + if outcome.Done? then 0 else 1
      ensures outcome.Done? ==> stored == sites
    {
      var written: bool := *;
      outcome := if written then Done else NotSaved;
      if written {
        stored := sites;
      } else {
        failures := failures + 1;
      }
    }

    method AddSite(site: Site) returns (outcome: Outcome)
      modifies this
      ensures sites == if outcome.Changed() then old(sites) + [site] else old(sites)
      ensures !outcome.NotFound?
      ensures failures >= old(failures) && (outcome.Done? <==> failures == old(failures))
      ensures outcome.Done? ==> stored == sites
    {
      outcome := Lock();
      if !outcome.Done? {
        return;
      }
      sites := sites + [site];
      outcome := WriteState();
    }

    method UpdateSite(site: Site) returns (outcome: Outcome)
      modifies this
      ensures outcome.Changed() || outcome.NotFound? ==>
                (outcome.NotFound? <==> forall i | 0 <= i < |old(sites)| :: old(sites)[i].domain != site.domain)
      ensures sites == if outcome.Changed() then Replaced(old(sites), site) else old(sites)
      ensures failures >= old(failures) && (outcome.Done? || outcome.NotFound? <==> failures == old(failures))
      ensures outcome.Done? ==> stored == sites
    {
      outcome := Lock();
      if !outcome.Done? {
        return;
      }
      var found, i := false, 0;
      while i < |sites| && !found
        invariant i <= |sites| == |old(sites)|
        invariant forall j | 0 <= j < i :: old(sites)[j].domain != site.domain
        invariant found ==> i < |sites| && old(sites)[i].domain == site.domain && sites == old(sites)[i := site]
        invariant !found ==> sites == old(sites)
        invariant failures == old(failures)
        decreases |sites| - i, !found
      {
        if sites[i].domain == site.domain {
          sites := sites[i := site];
          found := true;
        } else {
          i := i + 1;
        }
      }
      if !found {
        return NotFound;
      }
      outcome := WriteState();
    }

    method DeleteSite(name: string) returns (outcome: Outcome)
      modifies this
      ensures outcome.Changed() || outcome.NotFound? ==> (outcome.NotFound? <==> Resolve(old(sites), name).None?)
      ensures outcome.Changed() ==> sites == Removed(old(sites), Lookup(old(sites), name))
      ensures !outcome.Changed() ==> sites == old(sites)
      ensures failures >= old(failures) && (outcome.Done? || outcome.NotFound? <==> failures == old(failures))
      ensures outcome.Done? ==> stored == sites
    {
      outcome := Lock();
      if !outcome.Done? {
        return;
      }
      var i := 0;
      while i < |sites|
        invariant i <= |sites| && sites == old(sites) && failures == old(failures)
        invariant forall j | 0 <= j < i :: !HasName(sites[j], name)
      {
        if sites[i].domain == name || name in sites[i].aliases {
          sites := sites[i := sites[|sites| - 1]];
          sites := sites[..|sites| - 1];
          outcome := WriteState();
          return;
        }
        i := i + 1;
      }
      outcome := NotFound;
    }
  }

  /** A longer list is refused for the reason that its beginning is refused for. */
  lemma {:induction false} AliasesRefusedEarly(sites: seq<Site>, domain: string, elements: seq<Json>, n: nat)
    requires n <= |elements| && Aliases(sites, domain, elements[..n]).Refused?
    ensures Aliases(sites, domain, elements) == Aliases(sites, domain, elements[..n])
  {
    if n < |elements| {
      assert elements[..|elements| - 1][..n] == elements[..n];
      AliasesRefusedEarly(sites, domain, elements[..|elements| - 1], n);
    } else {
      assert elements[..n] == elements;
    }
  }

  lemma {:induction false} FieldsRefusedEarly(sites: seq<Site>, p: Patching, fields: Fields, world: World, n: nat)
    requires n <= |fields| && PatchFields(sites, p, fields[..n], world).Refused?
    ensures PatchFields(sites, p, fields, world) == PatchFields(sites, p, fields[..n], world)
  {
    if n < |fields| {
      assert fields[..|fields| - 1][..n] == fields[..n];
      FieldsRefusedEarly(sites, p, fields[..|fields| - 1], world, n);
    } else {
      assert fields[..n] == fields;
    }
  }

  class Api {
    const manager: Manager
    const world: World

    constructor (manager: Manager, world: World)
      ensures this.manager == manager && this.world == world
    {
      this.manager, this.world := manager, world;
    }

    /** A request is answered with the error of the first check that fails, and changes nothing; or its change is made
    and answered with success, exactly if the manager could lock and save, and then the store has the new table; only a
    patch that changes nothing is not saved. `failures` is what the manager counted before. */
    ghost predicate Answers(before: seq<Site>, failures: nat, request: Request, success: nat, status: nat)
      reads manager
    {
      && Step(before, request, world, manager.sites)
      && match Next(before, request, world)
         case Refused(error) => status == error && manager.sites == before && manager.failures == failures
         case Accepted(after) =>
           if manager.failures == failures then
             && status == success && manager.sites == after
             && (manager.stored == after || (request.Patch? && !AnyChanges(request.fields)))
           else status == 500
    }

    method AllFree(names: seq<string>) returns (free: bool)
      ensures free <==> Free(manager.sites, names)
    {
      var i := 0;
      while i < |names|
        invariant i <= |names|
        invariant forall j | 0 <= j < i :: Lookup(manager.sites, names[j]) == |manager.sites|
      {
        var other := manager.GetSite(names[i]);
        if other.Some? {
          return false;
        }
        i := i + 1;
      }
      free := true;
    }

    method CreateTlsOf(request: Option<TlsRequest>) returns (answer: SiteTable.Answer<Tls>)
      ensures forall tls :: answer == Accepted(tls) <==> Fits(request, tls, world)
      ensures answer.Refused? ==> answer.status == if CannotTell(request, world) then 500 else 409
      ensures answer == CreateTls(request, world)
    {
      var tls: Tls;
      if request.None? || request.value.kind == "" || request.value.kind == "selfsigned" {
        tls := Tls(SelfSigned, None, None);
      } else if request.value.kind == "acme" {
        tls := Tls(Acme, None, None);
      } else if request.value.kind == "imported" && NonEmpty(request.value.certificate).Some? {
        var found := world.found(Imported, request.value.certificate.value);
        if found.Broken? {
          return Refused(500);
        }
        if found.No? {
          return Refused(409);
        }
        tls := Tls(Imported, request.value.certificate, request.value.version);
      } else if request.value.kind == "akv" && NonEmpty(request.value.certificate).Some? {
        var found := world.found(AzureKeyVault, request.value.certificate.value);
        if found.Broken? {
          return Refused(500);
        }
        if found.No? {
          return Refused(409);
        }
        tls := Tls(AzureKeyVault, request.value.certificate, request.value.version);
      } else {
        return Refused(409);
      }
      if tls.version == Some("") {
        tls := tls.(version := None);
      }
      answer := Accepted(tls);
    }

    method CreateSiteHandler(request: CreateRequest, generated: string) returns (status: nat)
      modifies manager
      ensures Answers(old(manager.sites), old(manager.failures), Create(request, generated), 200, status)
    {
      if request.domain == "_default" || "_default" in request.aliases || request.app == Some("") {
        return 400;
      }
      var domain := request.domain;
      if request.temporary {
        var tempDomain := world.tempDomain;
        if tempDomain == "" {
          return 500;
        }
        if tempDomain[0] != '.' {
          tempDomain := "." + tempDomain;
        }
        if domain != "" || |request.aliases| > 0 {
          return 400;
        }
        if request.tls.Some? && request.tls.value.kind == "acme" {
          return 400;
        }
        domain := generated + tempDomain;
      } else if domain == "" {
        return 400;
      }
      var free := AllFree(request.aliases + [domain]);
      if !free {
        return 409;
      }
      var tls := CreateTlsOf(request.tls);
      if tls.Refused? {
        return tls.status;
      }
      var site := Site(domain, request.aliases, request.temporary, Some(tls.value), request.app);
      var outcome := manager.AddSite(site);
      status := if outcome.Done? then 200 else 500;
    }

    method CollectAliases(domain: string, elements: seq<Json>) returns (answer: SiteTable.Answer<seq<string>>)
      ensures answer == Aliases(manager.sites, domain, elements)
    {
      var aliases := [];
      var i := 0;
      while i < |elements|
        invariant i <= |elements|
        invariant Aliases(manager.sites, domain, elements[..i]) == Accepted(aliases)
      {
        assert elements[..i + 1][..i] == elements[..i];
        if elements[i].Null? {
          AliasesRefusedEarly(manager.sites, domain, elements, i + 1);
          return Refused(500);
        }
        if !elements[i].Str? {
          AliasesRefusedEarly(manager.sites, domain, elements, i + 1);
          return Refused(400);
        }
        var other := manager.GetSite(elements[i].text);
        if other.Some? && other.value.domain != domain {
          AliasesRefusedEarly(manager.sites, domain, elements, i + 1);
          return Refused(404);
        }
        aliases := aliases + [elements[i].text];
        i := i + 1;
      }
      assert elements[..i] == elements;
      answer := Accepted(aliases);
    }

    /** The settings that a tls object of a patch asks for. */
    method PatchTlsOf(site: Site, members: map<string, Json>) returns (answer: SiteTable.Answer<Tls>)
      ensures forall tls :: answer == Accepted(tls) <==> PatchFits(members, site.temporary, tls, world)
      ensures answer.Refused? ==> answer.status == PatchRefusal(members, site.temporary, world)
    {
      if "type" !in members || !members["type"].Str? {
        return Refused(409);
      }
      var kind := members["type"].text;
      var named := "cert" in members && members["cert"].Str? && members["cert"].text != "";
      if kind == "acme" {
        if site.temporary {
          return Refused(400);
        }
        answer := Accepted(Tls(Acme, None, None));
      } else if kind == "selfsigned" {
        answer := Accepted(Tls(SelfSigned, None, None));
      } else if kind == "imported" {
        if !named {
          return Refused(409);
        }
        var found := world.found(Imported, members["cert"].text);
        if found.Broken? {
          return Refused(500);
        }
        if found.No? {
          return Refused(409);
        }
        answer := Accepted(Tls(Imported, Some(members["cert"].text), None));
      } else if kind == "akv" {
        if !named {
          return Refused(409);
        }
        var version := if "ver" in members && members["ver"].Str? then members["ver"].text else "";
        var found := world.found(AzureKeyVault, members["cert"].text);
        if found.Broken? {
          return Refused(500);
        }
        if found.No? {
          return Refused(409);
        }
        var tls := Tls(AzureKeyVault, Some(members["cert"].text), None);
        if version != "" {
          tls := tls.(version := Some(version));
        }
        answer := Accepted(tls);
      } else {
        answer := Refused(409);
      }
    }

    /** One field of a patch. */
    method PatchOne(p: Patching, field: (string, Json)) returns (answer: SiteTable.Answer<Patching>)
      ensures answer == PatchField(manager.sites, p, field, world)
    {
      answer := Accepted(p);
      if ToLower(field.0) == "tls" {
        if field.1.Object? {
          var tls := PatchTlsOf(p.site, field.1.members);
          PatchTlsSame(p, field.1, tls);
          answer := if tls.Refused? then Refused(tls.status)
                    else Accepted(Patching(p.site.(tls := Some(tls.value)), true));
        }
      } else if ToLower(field.0) == "aliases" {
        if p.site.temporary {
          answer := Refused(400);
        } else if field.1.Null? {
          answer := Accepted(p.(site := p.site.(aliases := [])));
        } else if field.1.List? {
          var aliases := CollectAliases(p.site.domain, field.1.elements);
          answer := if aliases.Refused? then Refused(aliases.status)
                    else Accepted(Patching(p.site.(aliases := aliases.value), true));
        }
      }
    }

    lemma PatchTlsSame(p: Patching, v: Json, answer: SiteTable.Answer<Tls>)
      requires v.Object?
      requires forall tls :: answer == Accepted(tls) <==> PatchFits(v.members, p.site.temporary, tls, world)
      requires answer.Refused? ==> answer.status == PatchRefusal(v.members, p.site.temporary, world)
      ensures PatchTls(p, v, world) ==
              if answer.Refused? then Refused(answer.status)
              else Accepted(Patching(p.site.(tls := Some(answer.value)), true))
    {
      if answer.Accepted? {
        PatchTlsFits(p, v, world, answer.value);
      } else if PatchTls(p, v, world).Accepted? {
        PatchTlsFits(p, v, world, PatchTls(p, v, world).value.site.tls.value);
        assert false;
      } else {
        PatchTlsFits(p, v, world, Tls(Acme, None, None));
      }
    }

    /** The handler's loop over the fields of the patch. It succeeds exactly if every field is acceptable, and then the
    site is patched as the fields ask for. */
    method PatchLoop(site: Site, fields: Fields) returns (answer: SiteTable.Answer<Patching>)
      ensures answer == PatchFields(manager.sites, Patching(site, false), fields, world)
      ensures answer.Accepted? <==> forall k | 0 <= k < |fields| :: FieldFits(manager.sites, site, fields[k], world)
      ensures answer.Accepted? ==> PatchedAs(site, fields, world, answer.value)
    {
      PatchAcceptedIff(manager.sites, site, fields, world);
      var p := Patching(site, false);
      var i := 0;
      while i < |fields|
        invariant i <= |fields|
        invariant PatchFields(manager.sites, Patching(site, false), fields[..i], world) == Accepted(p)
      {
        assert fields[..i + 1][..i] == fields[..i];
        answer := PatchOne(p, fields[i]);
        if answer.Refused? {
          FieldsRefusedEarly(manager.sites, Patching(site, false), fields, world, i + 1);
          return;
        }
        p := answer.value;
        i := i + 1;
      }
      assert fields[..i] == fields;
      answer := Accepted(p);
      PatchDoes(manager.sites, site, fields, world);
    }

    /** The site that the name resolved to, patched as the fields ask for, has taken its own place. */
    ghost predicate Patched(before: seq<Site>, name: string, fields: Fields)
      reads manager
    {
      && Resolve(before, name).Some?
      && exists p :: PatchedAs(Resolve(before, name).value, fields, world, p) &&
                     manager.sites == if p.updated then Replaced(before, p.site) else before
    }

    method PatchSiteHandler(name: string, fields: Fields) returns (status: nat)
      modifies manager
      ensures Answers(old(manager.sites), old(manager.failures), Patch(name, fields), 200, status)
      ensures status == 200 ==> Patched(old(manager.sites), name, fields)
      ensures status == 200 && !AnyChanges(fields) ==> manager.sites == old(manager.sites)
    {
      if |name| == 0 {
        return 400;
      }
      var site := manager.GetSite(name);
      if site.None? {
        return 404;
      }
      var answer := PatchLoop(site.value, fields);
      if answer.Refused? {
        PatchRefusals(manager.sites, Patching(site.value, false), fields, world);
        return answer.status;
      }
      if answer.value.updated {
        var outcome := manager.UpdateSite(answer.value.site);
        if !outcome.Done? {
          return 500;
        }
      }
      status := 200;
    }

    method DeploySiteHandler(name: string, app: string) returns (status: nat)
      modifies manager
      ensures Answers(old(manager.sites), old(manager.failures), Deploy(name, app), 204, status)
    {
      if |name| == 0 {
        return 400;
      }
      var site := manager.GetSite(name);
      if site.None? {
        return 404;
      }
      if app == "" {
        return 400;
      }
      var clean := world.sanitize(app);
      if clean == "" {
        return 400;
      }
      var outcome := manager.UpdateSite(site.value.(app := Some(clean)));
      status := if outcome.Done? then 204 else 500;
    }

    method DeleteSiteHandler(name: string) returns (status: nat)
      modifies manager
      ensures Answers(old(manager.sites), old(manager.failures), Delete(name), 204, status)
    {
      if |name| == 0 {
        return 400;
      }
      var site := manager.GetSite(name);
      if site.None? {
        return 404;
      }
      var outcome := manager.DeleteSite(name);
      status := if outcome.Done? then 204 else 500;
    }
  }
}
