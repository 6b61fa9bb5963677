/** The configured host names (state/src/domains.rs): the suffix that turns an
    event slug into its hosted domain, and the hosts reserved for the admin and
    user scopes. */
module Domains {
  import opened Common

  datatype Domains = Domains(eventSuffix: string, admin: set<string>, user: set<string>)

  /** `Domains::new`: the two host lists become sets. */
  function New(eventSuffix: string, adminDomains: seq<string>, userDomains: seq<string>): (d: Domains)
    ensures d.eventSuffix == eventSuffix
    ensures forall h :: RequiresAdmin(d, h) <==> h in adminDomains
    ensures forall h :: RequiresUser(d, h) <==> h in userDomains
  {
    Domains(eventSuffix, set h | h in adminDomains, set h | h in userDomains)
  }

  /** `for_event`: the event's hosted domain. */
  function ForEvent(d: Domains, slug: string): (host: string)
    ensures |host| == |slug| + |d.eventSuffix|
    ensures host[..|slug|] == slug && host[|slug|..] == d.eventSuffix
  {
    slug + d.eventSuffix
  }

  /** `extract_slug_for_subdomain`: the host with the event suffix stripped, when
      it ends with it. */
  function ExtractSlugForSubdomain(d: Domains, host: string): (slug: Option<string>)
    ensures slug.Some? <==> |d.eventSuffix| <= |host| && host[|host| - |d.eventSuffix|..] == d.eventSuffix
    ensures slug.Some? ==> host == slug.value + d.eventSuffix
  {
    if |d.eventSuffix| <= |host| && host[|host| - |d.eventSuffix|..] == d.eventSuffix then
      Some(host[..|host| - |d.eventSuffix|])
    else None
  }

  /** The slug of an event's hosted domain is the event's slug. */
  lemma ExtractForEvent(d: Domains, slug: string)
    ensures ExtractSlugForSubdomain(d, ForEvent(d, slug)) == Some(slug)
  {
    var host := ForEvent(d, slug);
    assert host[|host| - |d.eventSuffix|..] == d.eventSuffix;
    assert host[..|host| - |d.eventSuffix|] == slug;
  }

  /** A host is some event's hosted domain exactly when a slug can be extracted
      from it, and then it is that slug's. */
  lemma ExtractIsInverse(d: Domains, host: string, slug: string)
    ensures ExtractSlugForSubdomain(d, host) == Some(slug) <==> host == ForEvent(d, slug)
  {
    if host == ForEvent(d, slug) {
      ExtractForEvent(d, slug);
    }
  }

  /** `requires_admin`. */
  predicate RequiresAdmin(d: Domains, host: string) {
    host in d.admin
  }

  /** `requires_user`. */
  predicate RequiresUser(d: Domains, host: string) {
    host in d.user
  }
}
