/** The principals that a TrafficTarget's sources may present. */
module Principals {
  import opened Identity
  import opened Issuance

  /** Each source under the signing issuer's trust domain and, while the issuers differ, under the validating one's. */
  function AllowedPrincipals(sources: seq<K8sServiceAccount>, info: IssuerInfo): set<string> {
    (set sa | sa in sources :: sa.AsPrincipal(info.signing.trustDomain, info.signing.spiffeEnabled)) +
    (if info.AreDifferent()
     then set sa | sa in sources :: sa.AsPrincipal(info.validating.trustDomain, info.validating.spiffeEnabled)
     else {})
  }

  /** Whether the issuers differ or not, a source is allowed under both of them. */
  lemma SourceAllowedUnderBothIssuers(sources: seq<K8sServiceAccount>, sa: K8sServiceAccount, info: IssuerInfo)
    requires sa in sources
    ensures sa.AsPrincipal(info.signing.trustDomain, info.signing.spiffeEnabled) in AllowedPrincipals(sources, info)
    ensures sa.AsPrincipal(info.validating.trustDomain, info.validating.spiffeEnabled)
        in AllowedPrincipals(sources, info)
  {
  }

  /** A principal is allowed exactly if it is some source's under one of the issuers. */
  lemma AllowedPrincipalIff(sources: seq<K8sServiceAccount>, info: IssuerInfo, principal: string)
    ensures principal in AllowedPrincipals(sources, info) <==>
            exists sa <- sources ::
              || principal == sa.AsPrincipal(info.signing.trustDomain, info.signing.spiffeEnabled)
              || principal == sa.AsPrincipal(info.validating.trustDomain, info.validating.spiffeEnabled)
  {
    forall sa <- sources { SourceAllowedUnderBothIssuers(sources, sa, info); }
  }
}
