/** The desired state: the list of sites, and the errors recorded per domain while a node applies it. */
module Sites {
  import opened Options

  datatype TlsType = Imported | AzureKeyVault | SelfSigned | Acme

  datatype Tls = Tls(kind: TlsType, certificate: Option<string>, version: Option<string>)

  /** `app` is the name of the app's bundle. */
  datatype Site = Site(domain: string, aliases: seq<string>, temporary: bool, tls: Option<Tls>, app: Option<string>)

  function Domains(sites: seq<Site>): set<string> {
    if sites == [] then {} else Domains(sites[..|sites| - 1]) + {sites[|sites| - 1].domain}
  }

  lemma {:induction false} DomainsMember(sites: seq<Site>, i: nat)
    requires i < |sites|
    ensures sites[i].domain in Domains(sites)
  {
    if i < |sites| - 1 {
      DomainsMember(sites[..|sites| - 1], i);
    }
  }

  lemma {:induction false} DomainsWitness(sites: seq<Site>, d: string) returns (i: nat)
    requires d in Domains(sites)
    ensures i < |sites| && sites[i].domain == d
  {
    i := |sites| - 1;
    if sites[i].domain != d {
      i := DomainsWitness(sites[..i], d);
    }
  }

  /** A domain without an entry is healthy. */
  class SiteHealth {
    var errors: map<string, string>

    constructor ()
      ensures errors == map[]
    {
      errors := map[];
    }

    method SetSiteHealth(domain: string, err: Option<string>)
      modifies this
      ensures errors == if err.Some? then old(errors)[domain := err.value] else old(errors) - {domain}
    {
      errors := if err.Some? then errors[domain := err.value] else errors - {domain};
    }
  }
}
