/** Certificates, the options they are requested with, and the names they carry. */
module Certificates {
  import opened GoStrings
  import Identity

  /** A PEM-encoded root certificate, identified by its text. */
  type Root = string

  datatype CertType = Internal | IngressGateway | Service

  /** What a caller asks for; the manager fills in trust domain, SPIFFE flag and validity. */
  datatype IssueOptions = IssueOptions(
    fullCNProvided: bool,
    trustDomain: string,
    commonNamePrefix: string,
    certType: CertType,
    validity: int,
    spiffeEnabled: bool)

  datatype Url = Url(scheme: string, host: string, path: string)

  /** `trustedCAs` is the PEM bundle of the certificate's holder, root by root. */
  datatype Certificate = Certificate(
    commonName: string,
    uriSan: string,
    cacheKey: string,
    expiration: int,
    issuingCA: Root,
    trustedCAs: seq<Root>,
    signingIssuerID: string,
    validatingIssuerID: string,
    certType: CertType)

  const NO_OPTIONS := IssueOptions(false, "", "", Internal, 0, false)

  function ForServiceIdentity(si: Identity.ServiceIdentity): IssueOptions {
    NO_OPTIONS.(commonNamePrefix := si, certType := Service)
  }

  function CommonName(o: IssueOptions): string {
    if o.fullCNProvided then o.commonNamePrefix
    else if o.commonNamePrefix == "" then o.trustDomain
    else o.commonNamePrefix + "." + o.trustDomain
  }

  function UriSan(o: IssueOptions): Url {
    if !o.spiffeEnabled then Url("", "", "")
    else
      var path := TrimSuffix(o.commonNamePrefix, "." + o.trustDomain);
      Url("spiffe", o.trustDomain, ReplaceAll(path, '.', '/'))
  }

  /** net/url's URL.String for URLs made of a scheme, a host and a path that need no escaping. */
  function UrlString(u: Url): string {
    (if u.scheme == "" then "" else u.scheme + ":") +
    (if (u.scheme != "" || u.host != "") && (u.host != "" || u.path != "") then "//" else "") +
    u.host +
    (if u.path != "" && u.path[0] != '/' && u.host != "" then "/" else "") +
    u.path
  }

  /** The name a peer authenticates: the URI SAN when the certificate has one, else the DNS SAN, which is the CN. */
  function PresentedPrincipal(c: Certificate): string {
    if c.uriSan != "" then c.uriSan else c.commonName
  }

  /** A trust check that stops at the trust anchor: the peer's issuing root is one of the holder's roots. */
  predicate Trusts(holder: Certificate, peer: Certificate) {
    peer.issuingCA in holder.trustedCAs
  }

  predicate MutuallyTrust(c: Certificate, d: Certificate) {
    Trusts(c, d) && Trusts(d, c)
  }

  /** A copy of the certificate whose bundle holds its issuing root and then the given one. */
  function NewMergedWithRoot(c: Certificate, root: Root): Certificate {
    c.(trustedCAs := [c.issuingCA] + [root])
  }

  /** For an identity of plain labels, only a trust domain equal to the namespace is trimmed off. */
  lemma TrustDomainSuffix(name: string, namespace: string, trustDomain: string)
    requires Identity.PlainLabel(name) && Identity.PlainLabel(namespace)
    ensures HasSuffix(Identity.New(name, namespace), "." + trustDomain) <==> trustDomain == namespace
  {
    var si := Identity.New(name, namespace);
    var suffix := "." + trustDomain;
    assert si[|name|] == '.';
    if HasSuffix(si, suffix) {
      var cut := |si| - |suffix|;
      assert si[cut] == suffix[0] == '.';
      assert forall i | 0 <= i < |si| && i != |name| :: si[i] != '.';
      assert trustDomain == suffix[1..] == si[cut..][1..] == namespace;
    }
    if trustDomain == namespace {
      assert si[|name|..] == suffix;
    }
  }

  /** What a service certificate requested for the identity of (name, namespace) presents. */
  function ServicePrincipal(name: string, namespace: string, trustDomain: string, spiffeEnabled: bool): string {
    var o := ForServiceIdentity(Identity.New(name, namespace)).(trustDomain := trustDomain,
      spiffeEnabled := spiffeEnabled);
    var uri := UrlString(UriSan(o));
    if uri != "" then uri else CommonName(o)
  }

  /** A URI SAN that is not the principal: without a trust domain, with one that is trimmed off the identity, or with a
      path that brings its own slash. */
  predicate Misprinted(si: Identity.ServiceIdentity, trustDomain: string)
    requires si != ""
  {
    trustDomain == "" || HasSuffix(si, "." + trustDomain) || si[0] in {'.', '/'}
  }

  /** A service certificate presents the principal that policies expect exactly when SPIFFE is off or the URI SAN prints
      the identity in full. */
  lemma ServicePrincipalIsExpected(name: string, namespace: string, trustDomain: string, spiffeEnabled: bool)
    ensures ServicePrincipal(name, namespace, trustDomain, spiffeEnabled)
         == Identity.PrincipalOf(Identity.New(name, namespace), trustDomain, spiffeEnabled)
       <==> !(spiffeEnabled && Misprinted(Identity.New(name, namespace), trustDomain))
  {
    var si := Identity.New(name, namespace);
    assert si[|name|] == '.' && si != Identity.WILDCARD;
    if spiffeEnabled {
      UriPrintsIdentityIff(si, trustDomain);
    }
  }

  /** The URI SAN for an identity. */
  function UriFor(si: Identity.ServiceIdentity, trustDomain: string): string {
    UrlString(Url("spiffe", trustDomain, ReplaceAll(TrimSuffix(si, "." + trustDomain), '.', '/')))
  }

  lemma UriPrintsIdentityIff(si: Identity.ServiceIdentity, trustDomain: string)
    requires si != ""
    ensures UriFor(si, trustDomain) == "spiffe://" + trustDomain + "/" + ReplaceAll(si, '.', '/') <==>
            !Misprinted(si, trustDomain)
    ensures HasSuffix(si, "." + trustDomain) ==> |UriFor(si, trustDomain)| <= 9 + |si|
  {
    var kept := TrimSuffix(si, "." + trustDomain);
    var path := ReplaceAll(kept, '.', '/');
    if HasSuffix(si, "." + trustDomain) {
      assert |path| == |si| - 1 - |trustDomain|;
    } else {
      assert (path[0] == '/') <==> si[0] in {'.', '/'};
      if trustDomain != "" && path[0] != '/' {
        assert UriFor(si, trustDomain) == "spiffe://" + trustDomain + "/" + path;
      }
    }
  }

  /** How a SPIFFE URL is written: the path follows the trust domain after one slash, its own or an added one. */
  lemma SpiffeUrl(host: string, path: string)
    ensures host != "" && path != "" && path[0] != '/' ==>
              UrlString(Url("spiffe", host, path)) == "spiffe://" + host + "/" + path
    ensures host != "" && (path == "" || path[0] == '/') ==>
              UrlString(Url("spiffe", host, path)) == "spiffe://" + host + path
    ensures host == "" && path != "" ==> UrlString(Url("spiffe", host, path)) == "spiffe://" + path
    ensures host == "" && path == "" ==> UrlString(Url("spiffe", host, path)) == "spiffe:"
    ensures UrlString(Url("", "", "")) == ""
  {
  }

  lemma SpiffeSlash(host: string, path: string)
    requires host != ""
    ensures var uri := UrlString(Url("spiffe", host, path)); |uri| > 7 && uri[..7] == "spiffe:" && uri[7] == '/'
  {
    assert UrlString(Url("spiffe", host, path))[..9] == "spiffe://";
  }

  /** A name that a URI SAN trims is no principal of the account, whatever the trust domain. */
  lemma TrimmedNameIsNoPrincipal(name: string, namespace: string, trustDomain: string, other: string,
                                 spiffeEnabled: bool)
    requires '/' !in Identity.New(name, namespace) && HasSuffix(Identity.New(name, namespace), "." + trustDomain)
    requires trustDomain != ""
    ensures UriFor(Identity.New(name, namespace), trustDomain)
         != Identity.PrincipalOf(Identity.New(name, namespace), other, spiffeEnabled)
  {
    var si := Identity.New(name, namespace);
    assert si[|name|] == '.' && si != Identity.WILDCARD;
    UriPrintsIdentityIff(si, trustDomain);
    var uri, principal := UriFor(si, trustDomain), Identity.PrincipalOf(si, other, spiffeEnabled);
    if spiffeEnabled {
      assert |principal| == 10 + |other| + |si|;
    } else {
      SpiffeSlash(trustDomain, ReplaceAll(TrimSuffix(si, "." + trustDomain), '.', '/'));
      DottedIsNoPrefix(si, |name|, uri);
      assert si <= principal;
    }
  }

  lemma DottedIsNoPrefix(si: string, dot: nat, uri: string)
    requires dot < |si| && si[dot] == '.' && '/' !in si && |uri| > 7 && uri[..7] == "spiffe:" && uri[7] == '/'
    ensures !(si <= uri)
  {
    if |si| > 7 {
      assert si[7] != uri[7];
    } else {
      assert uri[dot] == uri[..7][dot] != '.';
    }
  }
}
