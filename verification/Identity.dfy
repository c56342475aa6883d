/** Service identities, Kubernetes service accounts, and the principals that policies name. */
module Identity {
  import opened GoStrings

  /** The identity of a workload, "<service account>.<namespace>". */
  type ServiceIdentity = string

  const WILDCARD: ServiceIdentity := "*"

  datatype K8sServiceAccount = K8sServiceAccount(namespace: string, name: string) {

    function ToServiceIdentity(): ServiceIdentity {
      New(name, namespace)
    }

    function AsPrincipal(trustDomain: string, spiffeEnabled: bool): string {
      PrincipalOf(ToServiceIdentity(), trustDomain, spiffeEnabled)
    }
  }

  function New(name: string, namespace: string): ServiceIdentity {
    name + "." + namespace
  }

  /** The principal under which the workload appears in an authorization policy. */
  function PrincipalOf(si: ServiceIdentity, trustDomain: string, spiffeEnabled: bool): string {
    if si == WILDCARD then
      if spiffeEnabled then "spiffe://" + trustDomain else si
    else if spiffeEnabled then
      "spiffe://" + trustDomain + "/" + ReplaceAll(si, '.', '/')
    else
      si + "." + trustDomain
  }

  /** The wildcard's principal: under SPIFFE the trust domain's prefix of every principal, otherwise the wildcard. */
  lemma WildcardPrincipal(si: ServiceIdentity, trustDomain: string)
    ensures PrincipalOf("*", trustDomain, false) == "*"
    ensures PrincipalOf("*", trustDomain, true) <= PrincipalOf(si, trustDomain, true)
    ensures |PrincipalOf("*", trustDomain, true)| == 9 + |trustDomain|
  {
    var principal := PrincipalOf(si, trustDomain, true);
    if si != WILDCARD {
      assert principal == "spiffe://" + trustDomain + ("/" + ReplaceAll(si, '.', '/'));
    }
  }

  /** The first two chunks of an identity; the original panics on an identity without a dot. */
  function ToK8sServiceAccount(si: ServiceIdentity): K8sServiceAccount
    requires '.' in si
  {
    var chunks := Split(si, '.');
    K8sServiceAccount(chunks[1], chunks[0])
  }

  /** A label that can stand as one chunk of an identity, a common name or a SPIFFE path. */
  predicate PlainLabel(s: string) {
    '.' !in s && '/' !in s
  }

  predicate DotFree(sa: K8sServiceAccount) {
    '.' !in sa.name && '.' !in sa.namespace
  }

  /** Printing an account as an identity and reading it back gives the account exactly when it is free of dots. */
  lemma AccountRoundTrip(sa: K8sServiceAccount)
    ensures '.' in sa.ToServiceIdentity()
    ensures ToK8sServiceAccount(sa.ToServiceIdentity()) == sa <==> DotFree(sa)
  {
    var si := sa.ToServiceIdentity();
    assert si == sa.name + ['.'] + sa.namespace;
    assert si[|sa.name|] == '.';
    ReadAccountIsDotFree(si);
    if DotFree(sa) {
      SplitHead(sa.name, '.', sa.namespace);
    }
  }

  lemma ReadAccountIsDotFree(si: ServiceIdentity)
    requires '.' in si
    ensures DotFree(ToK8sServiceAccount(si))
  {
    SplitChunks(si, '.');
    var chunks := Split(si, '.');
    assert chunks[0] in chunks && chunks[1] in chunks;
  }

  /** An identity in the documented "<name>.<namespace>" format: exactly one dot. */
  predicate Canonical(si: ServiceIdentity) {
    '.' in si && ToK8sServiceAccount(si).ToServiceIdentity() == si
  }

  /** The account with a dot-free namespace that is printed as this identity. */
  function PrintedAccount(si: ServiceIdentity): K8sServiceAccount
    requires '.' in si
  {
    var i := LastIndexOf(si, '.');
    K8sServiceAccount(si[i + 1..], si[..i])
  }

  /** Accounts with dot-free namespaces are told apart by their identities, whatever their names. */
  lemma PrintedAccountIff(sa: K8sServiceAccount, si: ServiceIdentity)
    requires '.' in si && '.' !in sa.namespace
    ensures sa.ToServiceIdentity() == si <==> sa == PrintedAccount(si)
  {
    var i := LastIndexOf(si, '.');
    assert si == si[..i] + "." + si[i + 1..];
    LastIndexOfLast(sa.name, '.', sa.namespace);
    assert sa.ToServiceIdentity() == sa.name + ['.'] + sa.namespace;
  }

  /** An identity is read as the account that is printed so exactly when it is canonical. */
  lemma CanonicalIff(si: ServiceIdentity)
    requires '.' in si
    ensures Canonical(si) <==> ToK8sServiceAccount(si) == PrintedAccount(si)
  {
    ReadAccountIsDotFree(si);
    PrintedAccountIff(ToK8sServiceAccount(si), si);
  }
}
