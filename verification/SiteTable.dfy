/** The table of sites under the requests that create, patch, deploy and delete sites. */
module SiteTable {
  import opened Options
  import opened Sites
  import opened Runes

  predicate HasName(site: Site, name: string) {
    site.domain == name || name in site.aliases
  }

  /** No two sites share a domain or an alias. */
  ghost predicate Disjoint(sites: seq<Site>) {
    forall i, j, name | 0 <= i < j < |sites| :: !(HasName(sites[i], name) && HasName(sites[j], name))
  }

  /** The index of the first site with the name. */
  function Lookup(sites: seq<Site>, name: string): (i: nat)
    ensures i <= |sites| && (i < |sites| ==> HasName(sites[i], name))
    ensures forall j | 0 <= j < i :: !HasName(sites[j], name)
  {
    if sites == [] || HasName(sites[0], name) then 0 else 1 + Lookup(sites[1..], name)
  }

  function Resolve(sites: seq<Site>, name: string): Option<Site> {
    var i := Lookup(sites, name);
    if i < |sites| then Some(sites[i]) else None
  }

  /** A name resolves to a site exactly when the site has it. */
  lemma LookupIsUnambiguous(sites: seq<Site>, name: string, i: nat)
    requires Disjoint(sites) && i < |sites|
    ensures Lookup(sites, name) == i <==> HasName(sites[i], name)
  {
    var j := Lookup(sites, name);
    if j < i {
      assert HasName(sites[j], name);
    }
  }

  /** The last site takes the place of the removed one. */
  function Removed(sites: seq<Site>, i: nat): seq<Site>
    requires i < |sites|
  {
    sites[i := sites[|sites| - 1]][..|sites| - 1]
  }

  // What requests ask for.

  datatype TlsRequest = TlsRequest(kind: string, certificate: Option<string>, version: Option<string>)

  datatype CreateRequest =
    CreateRequest(domain: string, aliases: seq<string>, temporary: bool, tls: Option<TlsRequest>, app: Option<string>)

  datatype Json = Null | Str(text: string) | List(elements: seq<Json>) | Object(members: map<string, Json>) | Other

  /** The fields of a patch, in the order in which the map is visited. */
  type Fields = seq<(string, Json)>

  datatype Request =
    | Create(site: CreateRequest, generated: string)
    | Patch(name: string, fields: Fields)
    | Deploy(name: string, app: string)
    | Delete(name: string)

  datatype Found = Yes | No | Broken

  /** Configuration, and the certificates that exist while the request is handled. */
  datatype World = World(tempDomain: string, found: (TlsType, string) -> Found, sanitize: string -> string)

  datatype Answer<T> = Accepted(value: T) | Refused(status: nat)

  function Text(v: Option<Json>): string {
    if v.Some? && v.value.Str? then v.value.text else ""
  }

  function Member(members: map<string, Json>, key: string): Option<Json> {
    if key in members then Some(members[key]) else None
  }

  // Creating a site.

  function NonEmpty(s: Option<string>): Option<string> {
    if s == Some("") then None else s
  }

  /** The certificate of a new site, when it is an existing one. */
  function ExistingTls(kind: TlsType, request: TlsRequest, world: World): Answer<Tls>
    requires NonEmpty(request.certificate).Some?
  {
    match world.found(kind, request.certificate.value)
    case Broken => Refused(500)
    case No => Refused(409)
    case Yes => Accepted(Tls(kind, request.certificate, NonEmpty(request.version)))
  }

  function CreateTls(request: Option<TlsRequest>, world: World): Answer<Tls> {
    if request.None? || request.value.kind == "" || request.value.kind == "selfsigned" then
      Accepted(Tls(SelfSigned, None, None))
    else if request.value.kind == "acme" then Accepted(Tls(Acme, None, None))
    else if NonEmpty(request.value.certificate).None? then Refused(409)
    else if request.value.kind == "imported" then ExistingTls(Imported, request.value, world)
    else if request.value.kind == "akv" then ExistingTls(AzureKeyVault, request.value, world)
    else Refused(409)
  }

  /** The request for a certificate of this type by its name. */
  predicate Asks(request: TlsRequest, kind: TlsType) {
    match kind
    case SelfSigned => request.kind == "" || request.kind == "selfsigned"
    case Acme => request.kind == "acme"
    case Imported => request.kind == "imported" && NonEmpty(request.certificate).Some?
    case AzureKeyVault => request.kind == "akv" && NonEmpty(request.certificate).Some?
  }

  /** What a new site's certificate settings have to be for the request: of the type it asks for; those that are
  issued have no certificate and no version, and the others name a certificate that exists. */
  predicate Fits(request: Option<TlsRequest>, tls: Tls, world: World) {
    && (if request.None? then tls.kind.SelfSigned? else Asks(request.value, tls.kind))
    && tls.version != Some("")
    && if tls.kind.SelfSigned? || tls.kind.Acme? then tls.certificate.None? && tls.version.None?
       else
         && tls.certificate == request.value.certificate
         && (tls.version.Some? ==> tls.version == request.value.version)
         && (tls.version.None? ==> NonEmpty(request.value.version).None?)
         && world.found(tls.kind, tls.certificate.value).Yes?
  }

  /** The request names a certificate, and it cannot be found out whether it exists. */
  predicate CannotTell(request: Option<TlsRequest>, world: World) {
    && request.Some? && NonEmpty(request.value.certificate).Some?
    && ((Asks(request.value, Imported) && world.found(Imported, request.value.certificate.value).Broken?)
        || (Asks(request.value, AzureKeyVault) && world.found(AzureKeyVault, request.value.certificate.value).Broken?))
  }

  /** A request for settings gets settings that fit it, and is refused exactly if none can. */
  lemma CreateTlsFits(request: Option<TlsRequest>, world: World, tls: Tls)
    ensures CreateTls(request, world) == Accepted(tls) <==> Fits(request, tls, world)
    ensures CreateTls(request, world).Refused? ==>
              CreateTls(request, world).status == if CannotTell(request, world) then 500 else 409
  {
  }

  /** The domain of a new site. */
  function CreateDomain(request: CreateRequest, generated: string, world: World): Answer<string> {
    if request.domain == "_default" || "_default" in request.aliases || request.app == Some("") then Refused(400)
    else if request.temporary then
      if world.tempDomain == "" then Refused(500)
      else if request.domain != "" || request.aliases != [] then Refused(400)
      else if request.tls.Some? && request.tls.value.kind == "acme" then Refused(400)
      else Accepted(generated + if world.tempDomain[0] == '.' then world.tempDomain else "." + world.tempDomain)
    else if request.domain == "" then Refused(400)
    else Accepted(request.domain)
  }

  predicate Free(sites: seq<Site>, names: seq<string>) {
    forall i | 0 <= i < |names| :: Lookup(sites, names[i]) == |sites|
  }

  function CreateSite(sites: seq<Site>, request: CreateRequest, generated: string, world: World): Answer<Site> {
    match CreateDomain(request, generated, world)
    case Refused(status) => Refused(status)
    case Accepted(domain) =>
      if !Free(sites, request.aliases + [domain]) then Refused(409)
      else
        match CreateTls(request.tls, world)
        case Refused(status) => Refused(status)
        case Accepted(tls) => Accepted(Site(domain, request.aliases, request.temporary, Some(tls), request.app))
  }

  /** The domain that a new site asks for: its own, or for a temporary one a generated one below the configured
  domain. */
  predicate IsDomainOf(domain: string, request: CreateRequest, generated: string, world: World) {
    if request.temporary then
      && world.tempDomain != "" && request.domain == "" && request.aliases == []
      && (request.tls.Some? ==> request.tls.value.kind != "acme")
      && domain == generated + if world.tempDomain[0] == '.' then world.tempDomain else "." + world.tempDomain
    else domain == request.domain != ""
  }

  /** What a new site has to be for the request: it has the domain, the aliases, the app and settings that fit, none of
  its names is the reserved one, and nobody has one of them. */
  ghost predicate Answering(sites: seq<Site>, request: CreateRequest, generated: string, world: World, site: Site) {
    && IsDomainOf(site.domain, request, generated, world)
    && site.aliases == request.aliases && site.temporary == request.temporary && site.app == request.app
    && site.tls.Some? && Fits(request.tls, site.tls.value, world)
    && request.domain != "_default" && "_default" !in site.aliases && site.app != Some("")
    && forall i, name | 0 <= i < |sites| && HasName(site, name) :: !HasName(sites[i], name)
  }

  lemma FreeIff(sites: seq<Site>, names: seq<string>)
    ensures Free(sites, names) <==>
            forall i, name | 0 <= i < |sites| && name in names :: !HasName(sites[i], name)
  {
    if Free(sites, names) {
      forall i, name | 0 <= i < |sites| && name in names
        ensures !HasName(sites[i], name)
      {
        var k :| 0 <= k < |names| && names[k] == name;
        assert Lookup(sites, names[k]) == |sites|;
      }
    } else {
      var k :| 0 <= k < |names| && Lookup(sites, names[k]) != |sites|;
      assert names[k] in names && HasName(sites[Lookup(sites, names[k])], names[k]);
    }
  }

  /** A request for a site gets exactly such a site. */
  lemma CreatedIff(sites: seq<Site>, request: CreateRequest, generated: string, world: World, site: Site)
    ensures CreateSite(sites, request, generated, world) == Accepted(site) <==>
            Answering(sites, request, generated, world, site)
  {
    if site.tls.Some? {
      CreateTlsFits(request.tls, world, site.tls.value);
    }
    var domain := CreateDomain(request, generated, world);
    assert domain == Accepted(site.domain) <==>
        && IsDomainOf(site.domain, request, generated, world)
        && request.domain != "_default" && "_default" !in request.aliases && request.app != Some("");
    FreeIff(sites, request.aliases + [site.domain]);
    assert site.aliases == request.aliases ==>
        forall name :: HasName(site, name) <==> name in request.aliases + [site.domain];
  }

  // Patching a site.

  datatype Patching = Patching(site: Site, updated: bool)

  function PatchTls(p: Patching, v: Json, world: World): Answer<Patching> {
    if !v.Object? then Accepted(p)
    else
      var kind := Text(Member(v.members, "type"));
      var name := Text(Member(v.members, "cert"));
      var version := Text(Member(v.members, "ver"));
      if kind == "acme" then
        if p.site.temporary then Refused(400)
        else Accepted(Patching(p.site.(tls := Some(Tls(Acme, None, None))), true))
      else if kind == "selfsigned" then
        Accepted(Patching(p.site.(tls := Some(Tls(SelfSigned, None, None))), true))
      else if (kind == "imported" || kind == "akv") && name != "" then
        var k := if kind == "imported" then Imported else AzureKeyVault;
        match world.found(k, name)
        case Broken => Refused(500)
        case No => Refused(409)
        case Yes =>
          var ver := if kind == "imported" || version == "" then None else Some(version);
          Accepted(Patching(p.site.(tls := Some(Tls(k, Some(name), ver))), true))
      else Refused(409)
  }

  /** The member is a text that is not empty. */
  predicate IsText(members: map<string, Json>, key: string) {
    key in members && members[key].Str? && members[key].text != ""
  }

  /** The tls object of a patch asks for settings of this type. */
  predicate PatchAsks(members: map<string, Json>, kind: TlsType) {
    match kind
    case Acme => Member(members, "type") == Some(Str("acme"))
    case SelfSigned => Member(members, "type") == Some(Str("selfsigned"))
    case Imported => Member(members, "type") == Some(Str("imported")) && IsText(members, "cert")
    case AzureKeyVault => Member(members, "type") == Some(Str("akv")) && IsText(members, "cert")
  }

  /** What a site's certificate settings have to be for the tls object of a patch: of the type it asks for, which a
  temporary site may not ask ACME for; issued ones have no certificate and no version; the others name a certificate
  that exists under their type, and only one from the key vault can have a version. */
  predicate PatchFits(members: map<string, Json>, temporary: bool, tls: Tls, world: World) {
    && PatchAsks(members, tls.kind)
    && match tls.kind
       case Acme => !temporary && tls.certificate.None? && tls.version.None?
       case SelfSigned => tls.certificate.None? && tls.version.None?
       case Imported =>
         && tls.certificate == Some(members["cert"].text) && tls.version.None?
         && world.found(Imported, members["cert"].text).Yes?
       case AzureKeyVault =>
         && tls.certificate == Some(members["cert"].text)
         && tls.version == (if IsText(members, "ver") then Some(members["ver"].text) else None)
         && world.found(AzureKeyVault, members["cert"].text).Yes?
  }

  /** Why a tls object is refused: a temporary site asks for ACME, or it cannot be found out whether the certificate
  exists, or anything else is wrong. */
  function PatchRefusal(members: map<string, Json>, temporary: bool, world: World): nat {
    if PatchAsks(members, Acme) && temporary then 400
    else if PatchAsks(members, Imported) && world.found(Imported, members["cert"].text).Broken? then 500
    else if PatchAsks(members, AzureKeyVault) && world.found(AzureKeyVault, members["cert"].text).Broken? then 500
    else 409
  }

  /** A tls object sets settings that fit it and nothing else, and is refused exactly if none can; a value that is no
  object is ignored. */
  lemma PatchTlsFits(p: Patching, v: Json, world: World, tls: Tls)
    ensures !v.Object? ==> PatchTls(p, v, world) == Accepted(p)
    ensures v.Object? ==>
              && (PatchTls(p, v, world) == Accepted(Patching(p.site.(tls := Some(tls)), true)) <==>
                  PatchFits(v.members, p.site.temporary, tls, world))
              && (PatchTls(p, v, world).Refused? ==>
                    PatchTls(p, v, world).status == PatchRefusal(v.members, p.site.temporary, world))
              && (PatchTls(p, v, world).Accepted? ==>
                    var after := PatchTls(p, v, world).value;
                    after.site.tls.Some? && after == Patching(p.site.(tls := after.site.tls), true))
  {
  }

  /** The aliases of a patch, each one free or of the same site. A null in the list makes the handler panic. */
  function Aliases(sites: seq<Site>, domain: string, elements: seq<Json>): Answer<seq<string>> {
    if elements == [] then Accepted([])
    else
      var n := |elements| - 1;
      var before := Aliases(sites, domain, elements[..n]);
      if before.Refused? then before
      else if elements[n].Null? then Refused(500)
      else if !elements[n].Str? then Refused(400)
      else
        var other := Resolve(sites, elements[n].text);
        if other.Some? && other.value.domain != domain then Refused(404)
        else Accepted(before.value + [elements[n].text])
  }

  function PatchAliases(sites: seq<Site>, p: Patching, v: Json): Answer<Patching> {
    if p.site.temporary then Refused(400)
    else if v.Null? then Accepted(p.(site := p.site.(aliases := [])))
    else if v.List? then
      match Aliases(sites, p.site.domain, v.elements)
      case Refused(status) => Refused(status)
      case Accepted(aliases) => Accepted(Patching(p.site.(aliases := aliases), true))
    else Accepted(p)
  }

  function PatchField(sites: seq<Site>, p: Patching, field: (string, Json), world: World): Answer<Patching> {
    if ToLower(field.0) == "tls" then PatchTls(p, field.1, world)
    else if ToLower(field.0) == "aliases" then PatchAliases(sites, p, field.1)
    else Accepted(p)
  }

  function PatchFields(sites: seq<Site>, p: Patching, fields: Fields, world: World): Answer<Patching> {
    if fields == [] then Accepted(p)
    else
      var n := |fields| - 1;
      var before := PatchFields(sites, p, fields[..n], world);
      if before.Refused? then before else PatchField(sites, before.value, fields[n], world)
  }

  // The table after a request that is carried out.

  function Replaced(sites: seq<Site>, site: Site): seq<Site> {
    var i := DomainIndex(sites, site.domain);
    if i < |sites| then sites[i := site] else sites
  }

  function DomainIndex(sites: seq<Site>, domain: string): (i: nat)
    ensures i <= |sites| && (i < |sites| ==> sites[i].domain == domain)
    ensures forall j | 0 <= j < i :: sites[j].domain != domain
  {
    if sites == [] || sites[0].domain == domain then 0 else 1 + DomainIndex(sites[1..], domain)
  }

  function Next(sites: seq<Site>, request: Request, world: World): Answer<seq<Site>> {
    match request
    case Create(r, generated) =>
      (match CreateSite(sites, r, generated, world)
       case Refused(status) => Refused(status)
       case Accepted(site) => Accepted(sites + [site]))
    case Patch(name, fields) =>
      (if name == "" then Refused(400)
       else if Resolve(sites, name).None? then Refused(404)
       else
         match PatchFields(sites, Patching(Resolve(sites, name).value, false), fields, world)
         case Refused(status) => Refused(status)
         case Accepted(p) => Accepted(if p.updated then Replaced(sites, p.site) else sites))
    case Deploy(name, app) =>
      if name == "" then Refused(400)
      else if Resolve(sites, name).None? then Refused(404)
      else if app == "" || world.sanitize(app) == "" then Refused(400)
      else Accepted(Replaced(sites, Resolve(sites, name).value.(app := Some(world.sanitize(app)))))
    case Delete(name) =>
      if name == "" then Refused(400)
      else if Resolve(sites, name).None? then Refused(404)
      else Accepted(Removed(sites, Lookup(sites, name)))
  }

  /** Every request leaves the table as it was, or makes the change: also when writing the state fails. */
  predicate Step(sites: seq<Site>, request: Request, world: World, sites': seq<Site>) {
    sites' == sites || Next(sites, request, world) == Accepted(sites')
  }

  // The table stays unambiguous.

  lemma {:induction false} AliasesAreFree(sites: seq<Site>, domain: string, elements: seq<Json>, k: nat)
    requires Aliases(sites, domain, elements).Accepted?
    ensures |Aliases(sites, domain, elements).value| == |elements|
    ensures k < |elements| ==>
              && elements[k].Str?
              && Aliases(sites, domain, elements).value[k] == elements[k].text
              && (Resolve(sites, elements[k].text).Some? ==> Resolve(sites, elements[k].text).value.domain == domain)
  {
    if elements != [] {
      AliasesAreFree(sites, domain, elements[..|elements| - 1], k);
    }
  }

  /** What a patch keeps of the site, and where its aliases may come from. */
  ghost predicate PatchOf(sites: seq<Site>, site: Site, p: Patching) {
    && p.site.domain == site.domain && p.site.temporary == site.temporary && p.site.app == site.app
    && forall a | a in p.site.aliases :: a in site.aliases ||
                  (Resolve(sites, a).Some? ==> Resolve(sites, a).value.domain == site.domain)
  }

  lemma PatchFieldIsPatch(sites: seq<Site>, site: Site, p: Patching, field: (string, Json), world: World)
    requires PatchOf(sites, site, p) && PatchField(sites, p, field, world).Accepted?
    ensures PatchOf(sites, site, PatchField(sites, p, field, world).value)
  {
    if ToLower(field.0) == "aliases" && field.1.List? {
      var aliases := Aliases(sites, p.site.domain, field.1.elements).value;
      forall a | a in aliases
        ensures Resolve(sites, a).Some? ==> Resolve(sites, a).value.domain == site.domain
      {
        AliasesAreFree(sites, p.site.domain, field.1.elements, 0);
        var k :| 0 <= k < |aliases| && aliases[k] == a;
        AliasesAreFree(sites, p.site.domain, field.1.elements, k);
      }
    }
  }

  lemma {:induction false} PatchFieldsIsPatch(sites: seq<Site>, site: Site, fields: Fields, world: World)
    requires PatchFields(sites, Patching(site, false), fields, world).Accepted?
    ensures PatchOf(sites, site, PatchFields(sites, Patching(site, false), fields, world).value)
  {
    if fields != [] {
      var n := |fields| - 1;
      PatchFieldsIsPatch(sites, site, fields[..n], world);
      var before := PatchFields(sites, Patching(site, false), fields[..n], world).value;
      PatchFieldIsPatch(sites, site, before, fields[n], world);
    }
  }

  /** In an unambiguous table the domain alone identifies a site, and replacing it takes over its names. */
  lemma ReplacedResolves(sites: seq<Site>, i: nat, site: Site, name: string)
    requires Disjoint(sites) && i < |sites| && site.domain == sites[i].domain
    requires forall a | a in site.aliases :: Resolve(sites, a).Some? ==> Resolve(sites, a).value.domain == site.domain
    ensures Replaced(sites, site) == sites[i := site] && Disjoint(Replaced(sites, site))
    ensures Resolve(Replaced(sites, site), name) ==
            if HasName(site, name) then Some(site)
            else if HasName(sites[i], name) then None
            else Resolve(sites, name)
  {
    var k := DomainIndex(sites, site.domain);
    if k < i {
      assert HasName(sites[k], site.domain) && HasName(sites[i], site.domain);
      assert false;
    }
    assert k == i;
    var after := sites[i := site];
    forall a, j | 0 <= j < |sites| && j != i && HasName(site, a)
      ensures !HasName(sites[j], a)
    {
      LookupIsUnambiguous(sites, a, j);
      if a == site.domain {
        LookupIsUnambiguous(sites, a, i);
      } else if HasName(sites[j], a) {
        assert sites[j].domain == site.domain;
        LookupIsUnambiguous(sites, site.domain, i);
        LookupIsUnambiguous(sites, site.domain, j);
      }
    }
    assert Disjoint(after);
    if HasName(site, name) {
      LookupIsUnambiguous(after, name, i);
    } else if HasName(sites[i], name) {
      LookupIsUnambiguous(sites, name, i);
      var j := Lookup(after, name);
      if j < |after| {
        LookupIsUnambiguous(sites, name, j);
      }
    } else {
      var j := Lookup(sites, name);
      if j < |sites| {
        LookupIsUnambiguous(after, name, j);
      } else {
        assert forall k | 0 <= k < |after| :: !HasName(after[k], name);
      }
    }
  }

  lemma RemovedAt(sites: seq<Site>, i: nat, j: nat)
    requires i < |sites| && j < |sites| - 1
    ensures Removed(sites, i)[j] == if j == i then sites[|sites| - 1] else sites[j]
  {
  }

  lemma RemovedOnce(sites: seq<Site>, i: nat)
    requires i < |sites|
    ensures multiset(Removed(sites, i)) == multiset(sites) - multiset{sites[i]}
  {
    var n := |sites| - 1;
    assert sites == sites[..n] + [sites[n]];
    if i < n {
      assert sites[..n] == sites[..i] + [sites[i]] + sites[i + 1..n];
      assert Removed(sites, i) == sites[..i] + [sites[n]] + sites[i + 1..n];
    } else {
      assert Removed(sites, i) == sites[..n];
    }
  }

  lemma RemovedIsDisjoint(sites: seq<Site>, i: nat)
    requires Disjoint(sites) && i < |sites|
    ensures Disjoint(Removed(sites, i))
  {
    var after := Removed(sites, i);
    forall j, k, name | 0 <= j < k < |after|
      ensures !(HasName(after[j], name) && HasName(after[k], name))
    {
      RemovedAt(sites, i, j);
      RemovedAt(sites, i, k);
    }
  }

  /** Deleting removes exactly the site that the name resolves to, and every other name resolves as before. */
  lemma RemovedResolves(sites: seq<Site>, i: nat, name: string)
    requires Disjoint(sites) && i < |sites|
    ensures Disjoint(Removed(sites, i))
    ensures multiset(Removed(sites, i)) == multiset(sites) - multiset{sites[i]}
    ensures Resolve(Removed(sites, i), name) == if HasName(sites[i], name) then None else Resolve(sites, name)
  {
    RemovedOnce(sites, i);
    RemovedIsDisjoint(sites, i);
    var n := |sites| - 1;
    var after := Removed(sites, i);
    LookupIsUnambiguous(sites, name, i);
    var j := Lookup(sites, name);
    if j < |sites| && j != i {
      var k := if j == n then i else j;
      RemovedAt(sites, i, k);
      LookupIsUnambiguous(after, name, k);
    } else {
      forall k | 0 <= k < n
        ensures !HasName(after[k], name)
      {
        RemovedAt(sites, i, k);
        LookupIsUnambiguous(sites, name, if k == i then n else k);
      }
    }
  }

  lemma CreatedResolves(sites: seq<Site>, request: CreateRequest, generated: string, world: World, name: string)
    requires Disjoint(sites) && CreateSite(sites, request, generated, world).Accepted?
    ensures var site := CreateSite(sites, request, generated, world).value;
            && Disjoint(sites + [site])
            && Resolve(sites + [site], name) == if HasName(site, name) then Some(site) else Resolve(sites, name)
  {
    var site := CreateSite(sites, request, generated, world).value;
    var names := request.aliases + [site.domain];
    forall a | HasName(site, a)
      ensures Lookup(sites, a) == |sites|
    {
      assert a in names;
    }
    var after := sites + [site];
    assert Disjoint(after);
    var j := Lookup(sites, name);
    if j < |sites| {
      assert after[j] == sites[j];
      LookupIsUnambiguous(after, name, j);
    } else if HasName(site, name) {
      assert after[|sites|] == site;
      LookupIsUnambiguous(after, name, |sites|);
    } else {
      assert forall k | 0 <= k < |after| :: !HasName(after[k], name);
    }
  }

  lemma StepKeepsDisjoint(sites: seq<Site>, request: Request, world: World, sites': seq<Site>)
    requires Disjoint(sites) && Step(sites, request, world, sites')
    ensures Disjoint(sites')
  {
    if sites' != sites {
      match request
      case Create(r, generated) => CreatedResolves(sites, r, generated, world, "");
      case Delete(name) => RemovedResolves(sites, Lookup(sites, name), "");
      case Patch(name, fields) => PatchedResolves(sites, name, fields, world, "");
      case Deploy(name, app) => DeployedResolves(sites, name, app, world, "");
    }
  }

  /** A patch that is accepted and changes something: the name still resolves if it is the domain or a listed alias,
  and no other site loses or gains a name. */
  lemma PatchedResolves(sites: seq<Site>, name: string, fields: Fields, world: World, other: string)
    requires Disjoint(sites) && Resolve(sites, name).Some?
    requires PatchFields(sites, Patching(Resolve(sites, name).value, false), fields, world).Accepted?
    ensures var site := PatchFields(sites, Patching(Resolve(sites, name).value, false), fields, world).value.site;
            && Disjoint(Replaced(sites, site))
            && Resolve(Replaced(sites, site), other) ==
               if HasName(site, other) then Some(site)
               else if HasName(Resolve(sites, name).value, other) then None
               else Resolve(sites, other)
  {
    var i := Lookup(sites, name);
    PatchFieldsIsPatch(sites, sites[i], fields, world);
    var site := PatchFields(sites, Patching(sites[i], false), fields, world).value.site;
    forall a | a in site.aliases && Resolve(sites, a).Some?
      ensures Resolve(sites, a).value.domain == site.domain
    {
      LookupIsUnambiguous(sites, a, i);
    }
    ReplacedResolves(sites, i, site, other);
  }

  lemma DeployedResolves(sites: seq<Site>, name: string, app: string, world: World, other: string)
    requires Disjoint(sites) && Resolve(sites, name).Some?
    ensures var site := Resolve(sites, name).value.(app := Some(world.sanitize(app)));
            && Disjoint(Replaced(sites, site))
            && Resolve(Replaced(sites, site), other) ==
               if HasName(site, other) then Some(site) else Resolve(sites, other)
  {
    var i := Lookup(sites, name);
    var site := sites[i].(app := Some(world.sanitize(app)));
    forall a | a in site.aliases && Resolve(sites, a).Some?
      ensures Resolve(sites, a).value.domain == site.domain
    {
      LookupIsUnambiguous(sites, a, i);
    }
    ReplacedResolves(sites, i, site, other);
  }

  datatype Event = Event(request: Request, world: World)

  predicate IsRun(run: seq<seq<Site>>, events: seq<Event>) {
    && |run| == |events| + 1
    && forall i | 0 <= i < |events| :: Step(run[i], events[i].request, events[i].world, run[i + 1])
  }

  /** Over every sequence of requests the sites never come to share a name. */
  lemma {:induction false} RunKeepsDisjoint(run: seq<seq<Site>>, events: seq<Event>, k: nat)
    requires IsRun(run, events) && Disjoint(run[0]) && k < |run|
    ensures Disjoint(run[k])
  {
    if k > 0 {
      RunKeepsDisjoint(run, events, k - 1);
      StepKeepsDisjoint(run[k - 1], events[k - 1].request, events[k - 1].world, run[k]);
    }
  }

  // What goes wrong if the checks of a request and its change are not one step.

  ghost predicate ShareAName(a: Site, b: Site) {
    exists name :: HasName(a, name) && HasName(b, name)
  }

  /** Two sites that are accepted against the same table and added one after the other leave the names apart if and
  only if they have none in common. */
  lemma InterleavedCreates(sites: seq<Site>, r1: CreateRequest, g1: string, r2: CreateRequest, g2: string, world: World)
    requires Disjoint(sites)
    requires CreateSite(sites, r1, g1, world).Accepted? && CreateSite(sites, r2, g2, world).Accepted?
    ensures var a, b := CreateSite(sites, r1, g1, world).value, CreateSite(sites, r2, g2, world).value;
            Disjoint(sites + [a] + [b]) <==> !ShareAName(a, b)
  {
    var a, b := CreateSite(sites, r1, g1, world).value, CreateSite(sites, r2, g2, world).value;
    var n, after := |sites|, sites + [a] + [b];
    CreatedResolves(sites, r1, g1, world, "");
    CreatedResolves(sites, r2, g2, world, "");
    if ShareAName(a, b) {
      var name :| HasName(a, name) && HasName(b, name);
      assert after[n] == a && after[n + 1] == b;
    } else {
      forall i, j, name | 0 <= i < j < |after|
        ensures !(HasName(after[i], name) && HasName(after[j], name))
      {
        assert after[i] == if i < n then (sites + [b])[i] else a;
        assert after[j] == if j < n + 1 then (sites + [a])[j] else (sites + [b])[n];
      }
    }
  }

  /** Hence any two accepted requests for the same domain collide. */
  lemma InterleavedCreatesCollide(sites: seq<Site>, r1: CreateRequest, g1: string, r2: CreateRequest, g2: string,
                                  world: World)
    requires Disjoint(sites) && !r1.temporary && !r2.temporary && r1.domain == r2.domain
    requires CreateSite(sites, r1, g1, world).Accepted? && CreateSite(sites, r2, g2, world).Accepted?
    ensures !Disjoint(sites + [CreateSite(sites, r1, g1, world).value] + [CreateSite(sites, r2, g2, world).value])
  {
    InterleavedCreates(sites, r1, g1, r2, g2, world);
    var a, b := CreateSite(sites, r1, g1, world).value, CreateSite(sites, r2, g2, world).value;
    assert HasName(a, r1.domain) && HasName(b, r1.domain);
  }

  // The name that is reserved for the default site.

  const DEFAULT := "_default"

  predicate SetsAliases(field: (string, Json)) {
    ToLower(field.0) == "aliases" && (field.1.Null? || field.1.List?)
  }

  /** The value of the last field of a patch that sets the aliases. */
  function LastAliases(fields: Fields): Option<Json> {
    if fields == [] then None
    else if SetsAliases(fields[|fields| - 1]) then Some(fields[|fields| - 1].1)
    else LastAliases(fields[..|fields| - 1])
  }

  predicate Lists(v: Json, name: string) {
    v.List? && Str(name) in v.elements
  }

  lemma ListedIffAlias(sites: seq<Site>, domain: string, elements: seq<Json>, name: string)
    requires Aliases(sites, domain, elements).Accepted?
    ensures name in Aliases(sites, domain, elements).value <==> Str(name) in elements
  {
    var aliases := Aliases(sites, domain, elements).value;
    AliasesAreFree(sites, domain, elements, 0);
    if name in aliases {
      var k :| 0 <= k < |aliases| && aliases[k] == name;
      AliasesAreFree(sites, domain, elements, k);
      assert elements[k] == Str(name);
    }
    if Str(name) in elements {
      var k :| 0 <= k < |elements| && elements[k] == Str(name);
      AliasesAreFree(sites, domain, elements, k);
      assert aliases[k] == name;
    }
  }

  /** The aliases after a patch are those that its last field about aliases lists, or those from before. */
  lemma {:induction false} AliasAfterPatch(sites: seq<Site>, p: Patching, fields: Fields, world: World, name: string)
    requires PatchFields(sites, p, fields, world).Accepted?
    ensures var after := PatchFields(sites, p, fields, world).value;
            && (name in after.site.aliases <==>
                match LastAliases(fields) case None => name in p.site.aliases case Some(v) => Lists(v, name))
            && (LastAliases(fields).Some? && LastAliases(fields).value.List? ==> after.updated)
            && after.site.domain == p.site.domain
  {
    if fields != [] {
      var n := |fields| - 1;
      AliasAfterPatch(sites, p, fields[..n], world, name);
      if SetsAliases(fields[n]) && fields[n].1.List? {
        ListedIffAlias(sites, p.site.domain, fields[n].1.elements, name);
      }
    }
  }

  predicate SetsTls(field: (string, Json)) {
    ToLower(field.0) == "tls" && field.1.Object?
  }

  /** The members of the last tls object of a patch. */
  function LastTls(fields: Fields): Option<map<string, Json>> {
    if fields == [] then None
    else if SetsTls(fields[|fields| - 1]) then Some(fields[|fields| - 1].1.members)
    else LastTls(fields[..|fields| - 1])
  }

  predicate ChangesSite(field: (string, Json)) {
    SetsTls(field) || (ToLower(field.0) == "aliases" && field.1.List?)
  }

  predicate AnyChanges(fields: Fields) {
    exists k :: 0 <= k < |fields| && ChangesSite(fields[k])
  }

  /** What a patch makes of a site: the settings that its last tls object asks for, the aliases that its last field
  about aliases lists, and everything else as it was. It is saved exactly if a tls object or a list of aliases is
  there. */
  ghost predicate PatchedAs(site: Site, fields: Fields, world: World, after: Patching) {
    && after.site == site.(tls := after.site.tls, aliases := after.site.aliases)
    && (match LastTls(fields)
        case None => after.site.tls == site.tls
        case Some(members) =>
          after.site.tls.Some? && PatchFits(members, site.temporary, after.site.tls.value, world))
    && (match LastAliases(fields)
        case None => after.site.aliases == site.aliases
        case Some(v) => AreListed(after.site.aliases, v))
    && (after.updated <==> AnyChanges(fields))
  }

  /** The aliases are the texts of the list, in its order, and none for a null. */
  predicate AreListed(aliases: seq<string>, v: Json) {
    if v.List? then |aliases| == |v.elements| && forall k | 0 <= k < |aliases| :: v.elements[k] == Str(aliases[k])
    else aliases == []
  }

  lemma AnyChangesNext(fields: Fields)
    requires fields != []
    ensures AnyChanges(fields) <==> AnyChanges(fields[..|fields| - 1]) || ChangesSite(fields[|fields| - 1])
  {
    var n := |fields| - 1;
    if AnyChanges(fields[..n]) {
      var k :| 0 <= k < n && ChangesSite(fields[..n][k]);
      assert ChangesSite(fields[k]);
    }
  }

  lemma AliasesAreListed(sites: seq<Site>, domain: string, elements: seq<Json>)
    requires Aliases(sites, domain, elements).Accepted?
    ensures AreListed(Aliases(sites, domain, elements).value, List(elements))
  {
    AliasesAreFree(sites, domain, elements, 0);
    forall k | 0 <= k < |elements|
      ensures elements[k] == Str(Aliases(sites, domain, elements).value[k])
    {
      AliasesAreFree(sites, domain, elements, k);
    }
  }

  /** A patch that is accepted does what it asks for. */
  lemma {:induction false} PatchDoes(sites: seq<Site>, site: Site, fields: Fields, world: World)
    requires PatchFields(sites, Patching(site, false), fields, world).Accepted?
    ensures PatchedAs(site, fields, world, PatchFields(sites, Patching(site, false), fields, world).value)
  {
    if fields != [] {
      var n := |fields| - 1;
      PatchDoes(sites, site, fields[..n], world);
      AnyChangesNext(fields);
      var before := PatchFields(sites, Patching(site, false), fields[..n], world).value;
      if SetsTls(fields[n]) {
        var after := PatchTls(before, fields[n].1, world).value;
        PatchTlsFits(before, fields[n].1, world, after.site.tls.value);
      } else if SetsAliases(fields[n]) && fields[n].1.List? {
        AliasesAreListed(sites, before.site.domain, fields[n].1.elements);
      }
    }
  }

  /** An element of a list of aliases is a text, and no other site has it. */
  predicate AliasFits(sites: seq<Site>, domain: string, element: Json) {
    element.Str? && (Resolve(sites, element.text).Some? ==> Resolve(sites, element.text).value.domain == domain)
  }

  /** A list of aliases is accepted exactly if all of its elements fit. */
  lemma {:induction false} AliasesAcceptedIff(sites: seq<Site>, domain: string, elements: seq<Json>)
    ensures Aliases(sites, domain, elements).Accepted? <==>
            forall k | 0 <= k < |elements| :: AliasFits(sites, domain, elements[k])
  {
    if elements != [] {
      var n := |elements| - 1;
      AliasesAcceptedIff(sites, domain, elements[..n]);
      assert forall k | 0 <= k < n :: elements[..n][k] == elements[k];
    }
  }

  lemma {:induction false} AliasesRefusal(sites: seq<Site>, domain: string, elements: seq<Json>)
    ensures Aliases(sites, domain, elements).Refused? ==> Aliases(sites, domain, elements).status in {400, 404, 500}
  {
    if elements != [] {
      AliasesRefusal(sites, domain, elements[..|elements| - 1]);
    }
  }

  /** What a patch is refused with. */
  lemma {:induction false} PatchRefusals(sites: seq<Site>, p: Patching, fields: Fields, world: World)
    ensures PatchFields(sites, p, fields, world).Refused? ==>
              PatchFields(sites, p, fields, world).status in {400, 404, 409, 500}
  {
    if fields != [] {
      var n := |fields| - 1;
      PatchRefusals(sites, p, fields[..n], world);
      var before := PatchFields(sites, p, fields[..n], world);
      if before.Accepted? && fields[n].1.List? {
        AliasesRefusal(sites, before.value.site.domain, fields[n].1.elements);
      }
    }
  }

  /** A field of a patch that is acceptable for the site, whatever else the patch does. */
  ghost predicate FieldFits(sites: seq<Site>, site: Site, field: (string, Json), world: World) {
    && (SetsTls(field) ==> exists tls :: PatchFits(field.1.members, site.temporary, tls, world))
    && (ToLower(field.0) == "aliases" ==>
          && !site.temporary
          && (field.1.List? ==>
                forall k | 0 <= k < |field.1.elements| :: AliasFits(sites, site.domain, field.1.elements[k])))
  }

  lemma FieldAcceptedIff(sites: seq<Site>, site: Site, p: Patching, field: (string, Json), world: World)
    requires p.site.domain == site.domain && p.site.temporary == site.temporary
    ensures PatchField(sites, p, field, world).Accepted? <==> FieldFits(sites, site, field, world)
  {
    if SetsTls(field) {
      if PatchTls(p, field.1, world).Accepted? {
        PatchTlsFits(p, field.1, world, PatchTls(p, field.1, world).value.site.tls.value);
      }
      forall tls | PatchFits(field.1.members, site.temporary, tls, world)
        ensures PatchTls(p, field.1, world).Accepted?
      {
        PatchTlsFits(p, field.1, world, tls);
      }
    } else if ToLower(field.0) == "aliases" && field.1.List? {
      AliasesAcceptedIff(sites, site.domain, field.1.elements);
    }
  }

  /** A patch is accepted exactly if each of its fields is acceptable. */
  lemma {:induction false} PatchAcceptedIff(sites: seq<Site>, site: Site, fields: Fields, world: World)
    ensures PatchFields(sites, Patching(site, false), fields, world).Accepted? <==>
            forall k | 0 <= k < |fields| :: FieldFits(sites, site, fields[k], world)
  {
    if fields != [] {
      var n := |fields| - 1;
      PatchAcceptedIff(sites, site, fields[..n], world);
      assert forall k | 0 <= k < n :: fields[..n][k] == fields[k];
      var before := PatchFields(sites, Patching(site, false), fields[..n], world);
      if before.Accepted? {
        PatchFieldsIsPatch(sites, site, fields[..n], world);
        FieldAcceptedIff(sites, site, before.value, fields[n], world);
      }
    }
  }

  /** The request is a patch whose last field about aliases lists the name. */
  predicate Takes(request: Request, name: string) {
    request.Patch? && LastAliases(request.fields).Some? && Lists(LastAliases(request.fields).value, name)
  }

  predicate Has(sites: seq<Site>, name: string) {
    exists i :: 0 <= i < |sites| && HasName(sites[i], name)
  }

  /** A new site never has the reserved name: generated domains have a dot in them. */
  lemma CreatedWithoutDefault(sites: seq<Site>, request: CreateRequest, generated: string, world: World)
    requires CreateSite(sites, request, generated, world).Accepted?
    ensures !HasName(CreateSite(sites, request, generated, world).value, DEFAULT)
  {
    var site := CreateSite(sites, request, generated, world).value;
    if request.temporary {
      assert site.domain[|generated|] == '.';
      assert '.' !in DEFAULT;
    }
  }

  lemma ReplacedHas(sites: seq<Site>, site: Site, name: string)
    requires !Has(sites, name) && DomainIndex(sites, site.domain) < |sites|
    ensures Has(Replaced(sites, site), name) <==> HasName(site, name)
  {
    var i := DomainIndex(sites, site.domain);
    assert Replaced(sites, site)[i] == site;
  }

  lemma RemovedHas(sites: seq<Site>, i: nat, name: string)
    requires i < |sites| && !Has(sites, name)
    ensures !Has(Removed(sites, i), name)
  {
    forall j | 0 <= j < |sites| - 1
      ensures !HasName(Removed(sites, i)[j], name)
    {
      RemovedAt(sites, i, j);
    }
  }

  lemma PatchTakes(sites: seq<Site>, name: string, fields: Fields, world: World, sites': seq<Site>)
    requires !Has(sites, DEFAULT) && Next(sites, Patch(name, fields), world) == Accepted(sites')
    ensures Has(sites', DEFAULT) <==> Takes(Patch(name, fields), DEFAULT)
  {
    var site := Resolve(sites, name).value;
    var k := Lookup(sites, name);
    assert !HasName(sites[k], DEFAULT);
    var p := PatchFields(sites, Patching(site, false), fields, world).value;
    AliasAfterPatch(sites, Patching(site, false), fields, world, DEFAULT);
    assert sites[k].domain == p.site.domain;
    if p.updated {
      ReplacedHas(sites, p.site, DEFAULT);
    }
  }

  /** A table without the reserved name gets it by a request that is carried out if and only if the request is a patch
  whose last word on aliases lists it. */
  lemma DefaultNameIsTaken(sites: seq<Site>, request: Request, world: World, sites': seq<Site>)
    requires !Has(sites, DEFAULT) && Next(sites, request, world) == Accepted(sites')
    ensures Has(sites', DEFAULT) <==> Takes(request, DEFAULT)
  {
    match request
    case Create(r, generated) =>
      CreatedWithoutDefault(sites, r, generated, world);
      assert forall i | 0 <= i < |sites'| - 1 :: sites'[i] == sites[i];
    case Patch(name, fields) => PatchTakes(sites, name, fields, world, sites');
    case Deploy(name, app) =>
      var k := Lookup(sites, name);
      var site := sites[k].(app := Some(world.sanitize(app)));
      assert sites[k].domain == site.domain && !HasName(sites[k], DEFAULT);
      ReplacedHas(sites, site, DEFAULT);
    case Delete(name) => RemovedHas(sites, Lookup(sites, name), DEFAULT);
  }

  /** Over every sequence of requests: a table that started without the reserved name and has it got it from such a
  patch. */
  lemma {:induction false} DefaultNameComesFromPatch(run: seq<seq<Site>>, events: seq<Event>, k: nat) returns (j: nat)
    requires IsRun(run, events) && k < |run|
    requires !Has(run[0], DEFAULT) && Has(run[k], DEFAULT)
    ensures j < k && !Has(run[j], DEFAULT) && Has(run[j + 1], DEFAULT) && Takes(events[j].request, DEFAULT)
  {
    if Has(run[k - 1], DEFAULT) {
      j := DefaultNameComesFromPatch(run, events, k - 1);
    } else {
      j := k - 1;
      StepTakes(run[j], events[j].request, events[j].world, run[j + 1]);
    }
  }

  lemma StepTakes(sites: seq<Site>, request: Request, world: World, sites': seq<Site>)
    requires Step(sites, request, world, sites') && !Has(sites, DEFAULT) && Has(sites', DEFAULT)
    ensures Takes(request, DEFAULT)
  {
    DefaultNameIsTaken(sites, request, world, sites');
  }

  // The order of a patch's fields.

  predicate SameAnswer(a: Answer<Patching>, b: Answer<Patching>) {
    a == b || (a.Refused? && b.Refused?)
  }

  lemma TlsAndAliasesCommute(sites: seq<Site>, p: Patching, v: Json, w: Json, world: World)
    requires PatchTls(p, v, world).Accepted? && PatchAliases(sites, p, w).Accepted?
    ensures PatchAliases(sites, PatchTls(p, v, world).value, w) == PatchTls(PatchAliases(sites, p, w).value, v, world)
    ensures PatchAliases(sites, PatchTls(p, v, world).value, w).Accepted?
  {
  }

  /** A field is refused or accepted whatever the other field made of the site. */
  lemma RefusedEitherWay(sites: seq<Site>, p: Patching, v: Json, w: Json, world: World)
    ensures PatchTls(p, v, world).Accepted? ==>
              (PatchAliases(sites, PatchTls(p, v, world).value, w).Refused? <==> PatchAliases(sites, p, w).Refused?)
    ensures PatchAliases(sites, p, w).Accepted? ==>
              (PatchTls(PatchAliases(sites, p, w).value, v, world).Refused? <==> PatchTls(p, v, world).Refused?)
  {
  }

  /** Fields with different names can be visited in either order: both are refused, or both give the same site. */
  lemma FieldsCommute(sites: seq<Site>, p: Patching, f: (string, Json), g: (string, Json), world: World)
    requires ToLower(f.0) != ToLower(g.0)
    ensures SameAnswer(PatchFields(sites, p, [f, g], world), PatchFields(sites, p, [g, f], world))
  {
    PatchTwo(sites, p, f, g, world);
    PatchTwo(sites, p, g, f, world);
    var names := (ToLower(f.0), ToLower(g.0));
    if names == ("tls", "aliases") || names == ("aliases", "tls") {
      var (v, w) := if names.0 == "tls" then (f.1, g.1) else (g.1, f.1);
      RefusedEitherWay(sites, p, v, w, world);
      if PatchTls(p, v, world).Accepted? && PatchAliases(sites, p, w).Accepted? {
        TlsAndAliasesCommute(sites, p, v, w, world);
      }
    }
  }

  lemma PatchTwo(sites: seq<Site>, p: Patching, f: (string, Json), g: (string, Json), world: World)
    ensures PatchFields(sites, p, [f, g], world) ==
            var first := PatchField(sites, p, f, world);
            if first.Refused? then first else PatchField(sites, first.value, g, world)
  {
    assert [f, g][..1] == [f] && [f][..0] == [];
    assert PatchFields(sites, p, [f], world) == PatchField(sites, p, f, world);
  }

  lemma {:induction false} PatchFieldsSplits(sites: seq<Site>, p: Patching, a: Fields, b: Fields, world: World)
    ensures PatchFields(sites, p, a + b, world) ==
            var first := PatchFields(sites, p, a, world);
            if first.Refused? then first else PatchFields(sites, first.value, b, world)
  {
    if b == [] {
      assert a + b == a;
    } else {
      PatchFieldsSplits(sites, p, a, b[..|b| - 1], world);
      assert (a + b)[..|a + b| - 1] == a + b[..|b| - 1];
    }
  }

  /** Swapping two neighbouring fields with different names anywhere in the patch makes no difference. */
  lemma NeighboursCommute(sites: seq<Site>, p: Patching, a: Fields, f: (string, Json), g: (string, Json), b: Fields,
                          world: World)
    requires ToLower(f.0) != ToLower(g.0)
    ensures SameAnswer(PatchFields(sites, p, a + [f, g] + b, world), PatchFields(sites, p, a + [g, f] + b, world))
  {
    PatchFieldsSplits(sites, p, a + [f, g], b, world);
    PatchFieldsSplits(sites, p, a + [g, f], b, world);
    PatchFieldsSplits(sites, p, a, [f, g], world);
    PatchFieldsSplits(sites, p, a, [g, f], world);
    var before := PatchFields(sites, p, a, world);
    if before.Accepted? {
      FieldsCommute(sites, before.value, f, g, world);
    }
  }

  lemma MovesToTheEnd(sites: seq<Site>, p: Patching, a: Fields, f: (string, Json), b: Fields, world: World)
    requires forall k | 0 <= k < |b| :: ToLower(b[k].0) != ToLower(f.0)
    ensures SameAnswer(PatchFields(sites, p, a + [f] + b, world), PatchFields(sites, p, a + b + [f], world))
    decreases |b|
  {
    if b == [] {
      assert a + [f] + b == a + b + [f];
    } else {
      NeighboursCommute(sites, p, a, f, b[0], b[1..], world);
      MovesToTheEnd(sites, p, a + [b[0]], f, b[1..], world);
      Regroup(a, f, b);
    }
  }

  lemma Regroup(a: Fields, f: (string, Json), b: Fields)
    requires b != []
    ensures a + [f, b[0]] + b[1..] == a + [f] + b
    ensures a + [b[0], f] + b[1..] == (a + [b[0]]) + [f] + b[1..]
    ensures (a + [b[0]]) + b[1..] + [f] == a + b + [f]
  {
  }

  predicate DistinctNames(fields: Fields) {
    forall i, j | 0 <= i < j < |fields| :: ToLower(fields[i].0) != ToLower(fields[j].0)
  }

  lemma WithoutOne(fields: Fields, k: nat)
    requires k < |fields|
    ensures multiset(fields[..k] + fields[k + 1..]) == multiset(fields) - multiset{fields[k]}
  {
    assert fields == fields[..k] + [fields[k]] + fields[k + 1..];
  }

  lemma LastMoves(a: Fields, b: Fields) returns (k: nat)
    requires a != [] && multiset(a) == multiset(b)
    ensures k < |b| && b[k] == a[|a| - 1] && multiset(a[..|a| - 1]) == multiset(b[..k] + b[k + 1..])
  {
    var n := |a| - 1;
    assert a[n] in multiset(b);
    k :| 0 <= k < |b| && b[k] == a[n];
    WithoutOne(a, n);
    WithoutOne(b, k);
    assert a[..n] + a[n + 1..] == a[..n];
  }

  /** The fields of a patch can be visited in any order, if no two have the same name in lowercase: it is always
  refused, or the result is always the same site. */
  lemma {:induction false} PatchOrderIrrelevant(sites: seq<Site>, p: Patching, a: Fields, b: Fields, world: World)
    requires multiset(a) == multiset(b) && DistinctNames(b)
    ensures SameAnswer(PatchFields(sites, p, a, world), PatchFields(sites, p, b, world))
    decreases |a|
  {
    if a == [] {
      assert |multiset(b)| == 0;
    } else {
      var n := |a| - 1;
      var k := LastMoves(a, b);
      var f, front, back := b[k], b[..k], b[k + 1..];
      assert b == front + [f] + back && a == a[..n] + [f];
      MovesToTheEnd(sites, p, front, f, back, world);
      PatchOrderIrrelevant(sites, p, a[..n], front + back, world);
      PatchFieldsSplits(sites, p, a[..n], [f], world);
      PatchFieldsSplits(sites, p, front + back, [f], world);
    }
  }

  // Two fields with the same name in lowercase.

  /** What a field that is accepted sets, and nothing if it leaves the site as it is. */
  datatype Setting = Nothing | TlsSetting(tls: Option<Tls>) | AliasesSetting(aliases: seq<string>)

  function SettingOf(sites: seq<Site>, p: Patching, field: (string, Json), world: World): Setting
    requires PatchField(sites, p, field, world).Accepted?
  {
    var after := PatchField(sites, p, field, world).value.site;
    if ToLower(field.0) == "tls" && field.1.Object? then TlsSetting(after.tls)
    else if SetsAliases(field) then AliasesSetting(after.aliases)
    else Nothing
  }

  predicate Refuses(sites: seq<Site>, p: Patching, field: (string, Json), world: World) {
    PatchField(sites, p, field, world).Refused?
  }

  /** Two fields of the same name can be visited in either order if and only if one of them is refused, or one sets
  nothing, or both set the same. */
  lemma SameNameOrder(sites: seq<Site>, p: Patching, f: (string, Json), g: (string, Json), world: World)
    requires ToLower(f.0) == ToLower(g.0)
    ensures SameAnswer(PatchFields(sites, p, [f, g], world), PatchFields(sites, p, [g, f], world)) <==>
            || Refuses(sites, p, f, world) || Refuses(sites, p, g, world)
            || SettingOf(sites, p, f, world).Nothing? || SettingOf(sites, p, g, world).Nothing?
            || SettingOf(sites, p, f, world) == SettingOf(sites, p, g, world)
  {
    PatchTwo(sites, p, f, g, world);
    PatchTwo(sites, p, g, f, world);
    RefusedAnyway(sites, p, f, g, world);
    RefusedAnyway(sites, p, g, f, world);
    if !Refuses(sites, p, f, world) && !Refuses(sites, p, g, world) {
      SameNameResult(sites, p, f, g, world);
    }
  }

  /** A field is refused or accepted whatever another one of its name did before. */
  lemma RefusedAnyway(sites: seq<Site>, p: Patching, f: (string, Json), g: (string, Json), world: World)
    requires ToLower(f.0) == ToLower(g.0)
    ensures PatchField(sites, p, f, world).Accepted? ==>
              (Refuses(sites, PatchField(sites, p, f, world).value, g, world) <==> Refuses(sites, p, g, world))
  {
    if PatchField(sites, p, f, world).Accepted? {
      if ToLower(f.0) == "tls" {
        TlsTwice(p, f.1, g.1, world);
      } else if ToLower(f.0) == "aliases" {
        AliasesTwice(sites, p, f.1, g.1);
      }
    }
  }

  lemma SameNameResult(sites: seq<Site>, p: Patching, f: (string, Json), g: (string, Json), world: World)
    requires ToLower(f.0) == ToLower(g.0) && !Refuses(sites, p, f, world) && !Refuses(sites, p, g, world)
    ensures var a := PatchField(sites, p, f, world).value;
            var b := PatchField(sites, p, g, world).value;
            PatchField(sites, a, g, world) == PatchField(sites, b, f, world) <==>
            || SettingOf(sites, p, f, world).Nothing? || SettingOf(sites, p, g, world).Nothing?
            || SettingOf(sites, p, f, world) == SettingOf(sites, p, g, world)
  {
    if ToLower(f.0) == "tls" {
      TlsTwice(p, f.1, g.1, world);
      TlsTwice(p, g.1, f.1, world);
    } else if ToLower(f.0) == "aliases" {
      AliasesTwice(sites, p, f.1, g.1);
      AliasesTwice(sites, p, g.1, f.1);
    }
  }

  /** A field for the certificate does the same whatever another one did before. */
  lemma TlsTwice(p: Patching, v: Json, w: Json, world: World)
    requires PatchTls(p, v, world).Accepted?
    ensures var first := PatchTls(p, v, world).value;
            && (PatchTls(first, w, world).Refused? <==> PatchTls(p, w, world).Refused?)
            && (PatchTls(p, w, world).Accepted? && w.Object? ==> PatchTls(first, w, world) == PatchTls(p, w, world))
            && (!w.Object? ==> PatchTls(first, w, world) == Accepted(first))
            && (v.Object? ==> first.updated && first.site == p.site.(tls := first.site.tls))
            && (!v.Object? ==> first == p)
  {
  }

  lemma AliasesTwice(sites: seq<Site>, p: Patching, v: Json, w: Json)
    requires PatchAliases(sites, p, v).Accepted?
    ensures var first := PatchAliases(sites, p, v).value;
            && (PatchAliases(sites, first, w).Refused? <==> PatchAliases(sites, p, w).Refused?)
            && (PatchAliases(sites, p, w).Accepted? && (w.Null? || w.List?) ==>
                  PatchAliases(sites, first, w).Accepted?
                  && PatchAliases(sites, first, w).value.site == PatchAliases(sites, p, w).value.site)
            && (!w.Null? && !w.List? && PatchAliases(sites, p, w).Accepted? ==>
                  PatchAliases(sites, first, w) == Accepted(first))
            && (PatchAliases(sites, p, w).Accepted? ==>
                  (PatchAliases(sites, first, w).value.updated <==> p.updated || v.List? || w.List?))
            && (!v.Null? && !v.List? ==> first == p)
  {
  }

  /** For example, an empty list and a free name: the order in which the map is visited decides whether the site has the
  name. */
  lemma OrderDecides(sites: seq<Site>, p: Patching, name: string, world: World)
    requires !p.site.temporary && Resolve(sites, name).None?
    ensures !SameAnswer(PatchFields(sites, p, [("aliases", List([])), ("Aliases", List([Str(name)]))], world),
                        PatchFields(sites, p, [("Aliases", List([Str(name)])), ("aliases", List([]))], world))
  {
    var f, g := ("aliases", List([])), ("Aliases", List([Str(name)]));
    LowerAliases();
    var none: seq<string> := [];
    assert [Str(name)][..0] == [];
    assert Aliases(sites, p.site.domain, [Str(name)]) == Accepted(none + [name]);
    assert none + [name] == [name];
    SameNameOrder(sites, p, f, g, world);
  }

  lemma LowerAliases()
    ensures ToLower("aliases") == "aliases" && ToLower("Aliases") == "aliases"
  {
    assert "Aliases"[1..] == "liases" && "aliases"[1..] == "liases";
  }
}
