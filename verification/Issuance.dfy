/** Issuing and renewing certificates, as functions of the manager's issuers, cache and clock. */
module Issuance {
  import opened Wrappers
  import opened Certificates
  import opened Reconciler

  // Durations and instants are in nanoseconds.
  const SECOND := 1_000_000_000
  const MINUTE := 60 * SECOND
  const MIN_ROTATE_BEFORE_EXPIRE := 5 * MINUTE
  const FRACTION_VALIDITY_DURATION := 3
  const NOISE_SECONDS := 5
  const OSM_CERTIFICATE_VALIDITY := 87600 * 60 * MINUTE

  /** The configured validity durations for service and ingress-gateway certificates. */
  datatype Validity = Validity(service: int, ingress: int)

  function ValidityFor(v: Validity, ct: CertType): int {
    match ct
    case Internal => OSM_CERTIFICATE_VALIDITY
    case IngressGateway => v.ingress
    case Service => v.service
  }

  /** The floor that the mesh configuration puts under a validity duration. */
  function CheckValidityDuration(d: int): int {
    if d < 2 * MIN_ROTATE_BEFORE_EXPIRE then 2 * MIN_ROTATE_BEFORE_EXPIRE else d
  }

  /** Go's integer division, which truncates toward zero. */
  function Quotient(a: int, b: int): int
    requires b > 0
  {
    if a >= 0 then a / b else -(-a / b)
  }

  /** How long before expiry a certificate is renewed; `noise` is the random number of extra seconds. */
  function RenewBefore(validity: int, noise: int): int {
    var fraction := Quotient(validity, FRACTION_VALIDITY_DURATION);
    (if fraction >= MIN_ROTATE_BEFORE_EXPIRE then fraction else MIN_ROTATE_BEFORE_EXPIRE) + noise * SECOND
  }

  predicate IsNoise(noise: int) {
    0 <= noise < NOISE_SECONDS
  }

  predicate Ready(issuers: Issuers) {
    issuers.signing.Some? && issuers.validating.Some?
  }

  predicate StampedWith(c: Certificate, issuers: Issuers)
    requires Ready(issuers)
  {
    c.signingIssuerID == issuers.signing.value.id && c.validatingIssuerID == issuers.validating.value.id
  }

  predicate ShouldRotate(c: Certificate, issuers: Issuers, validity: Validity, now: int, noise: int)
    requires Ready(issuers)
  {
    c.expiration - now <= RenewBefore(ValidityFor(validity, c.certType), noise) || !StampedWith(c, issuers)
  }

  datatype PrincipalInfo = PrincipalInfo(trustDomain: string, spiffeEnabled: bool)

  /** What policy builders learn about the issuers. */
  datatype IssuerInfo = IssuerInfo(signing: PrincipalInfo, validating: PrincipalInfo) {
    predicate AreDifferent() {
      signing != validating
    }
  }

  function GetIssuersInfo(issuers: Issuers): IssuerInfo
    requires Ready(issuers)
  {
    var s, v := issuers.signing.value, issuers.validating.value;
    IssuerInfo(PrincipalInfo(s.trustDomain, s.spiffeEnabled), PrincipalInfo(v.trustDomain, v.spiffeEnabled))
  }

  /** Policy builders learn the trust domain and the SPIFFE flag of each issuer. */
  lemma IssuersInfoIs(issuers: Issuers)
    requires Ready(issuers)
    ensures var info, s, v := GetIssuersInfo(issuers), issuers.signing.value, issuers.validating.value;
            && info.signing.trustDomain == s.trustDomain && info.signing.spiffeEnabled == s.spiffeEnabled
            && info.validating.trustDomain == v.trustDomain && info.validating.spiffeEnabled == v.spiffeEnabled
  {
  }

  /** What the provider behind the signing issuer returns: its own root is all the certificate trusts. */
  function ProviderCertificate(o: IssueOptions, signing: Issuer, now: int): Certificate {
    Certificate(CommonName(o), UrlString(UriSan(o)), "", now + o.validity, signing.ca, [signing.ca], "", "", Internal)
  }

  /** A newly issued certificate for the request `o`. */
  function NewCertificate(o: IssueOptions, issuers: Issuers, validity: Validity, now: int): Certificate
    requires Ready(issuers)
  {
    var s, v := issuers.signing.value, issuers.validating.value;
    var full := o.(validity := ValidityFor(validity, o.certType), trustDomain := s.trustDomain,
      spiffeEnabled := s.spiffeEnabled);
    var issued := ProviderCertificate(full, s, now);
    var merged := if v.id != s.id then NewMergedWithRoot(issued, v.ca) else issued;
    merged.(signingIssuerID := s.id, validatingIssuerID := v.id, certType := o.certType, cacheKey := o.commonNamePrefix)
  }

  /** What one call of issueCertificate does to the cache; a message is a rotated certificate and its topic. */
  datatype Issued = Issued(cache: map<string, Certificate>, result: Option<Certificate>,
                           messages: seq<(string, Certificate)>)

  /** `up` tells whether the provider answers. A certificate that need not be rotated is served from the cache. */
  function IssueCertificate(cache: map<string, Certificate>, o: IssueOptions, issuers: Issuers, validity: Validity,
                            now: int, noise: int, up: bool): Issued
    requires Ready(issuers)
  {
    var key := o.commonNamePrefix;
    if key in cache && !ShouldRotate(cache[key], issuers, validity, now, noise) then Issued(cache, Some(cache[key]), [])
    else if !up then Issued(cache, None, [])
    else
      var c := NewCertificate(o, issuers, validity, now);
      Issued(cache[key := c], Some(c), if key in cache then [(cache[key].cacheKey, c)] else [])
  }

  /** The request that checkAndRotate derives from a cache entry: a key equal to the common name is a full name. */
  function RotationOptions(key: string, c: Certificate): IssueOptions {
    NO_OPTIONS.(commonNamePrefix := key, certType := c.certType, fullCNProvided := key == c.commonName)
  }

  /** The entry of the cache after checkAndRotate has dealt with it. */
  function RotatedEntry(key: string, c: Certificate, issuers: Issuers, validity: Validity, now: int, noise: int,
                        up: bool): Certificate
    requires Ready(issuers)
  {
    if !ShouldRotate(c, issuers, validity, now, noise) || !up then c
    else NewCertificate(RotationOptions(key, c), issuers, validity, now)
  }

  // ---------------------------------------------------------------------------
  // Renewal keeps the meaning of the request

  /** The common name equals the cache key exactly when a full name was requested, except for an empty key in an empty
      trust domain. */
  lemma KeyTellsFullName(o: IssueOptions)
    ensures o.commonNamePrefix == CommonName(o) <==>
        o.fullCNProvided || (o.commonNamePrefix == "" && o.trustDomain == "")
  {
    if !o.fullCNProvided && o.commonNamePrefix != "" {
      assert |CommonName(o)| == |o.commonNamePrefix| + 1 + |o.trustDomain|;
    }
  }

  /** The request behind a certificate is recovered from its cache entry, so a renewal yields the certificate that the
      original request would now be given. */
  lemma RenewalAnswersOriginalRequest(o: IssueOptions, earlier: Issuers, earlierValidity: Validity, issuedAt: int,
                                      issuers: Issuers, validity: Validity, now: int)
    requires Ready(earlier) && Ready(issuers) && earlier.signing.value.trustDomain != ""
    ensures var c := NewCertificate(o, earlier, earlierValidity, issuedAt);
            var r := RotationOptions(c.cacheKey, c);
            && r.fullCNProvided == o.fullCNProvided
            && NewCertificate(r, issuers, validity, now) == NewCertificate(o, issuers, validity, now)
  {
    KeyTellsFullName(o.(trustDomain := earlier.signing.value.trustDomain));
    var s := issuers.signing.value;
    var c := NewCertificate(o, earlier, earlierValidity, issuedAt);
    var r := RotationOptions(c.cacheKey, c);
    var full := o.(validity := ValidityFor(validity, o.certType), trustDomain := s.trustDomain,
      spiffeEnabled := s.spiffeEnabled);
    assert full == r.(validity := ValidityFor(validity, o.certType), trustDomain := s.trustDomain,
      spiffeEnabled := s.spiffeEnabled);
  }

  // ---------------------------------------------------------------------------
  // Validities and renewal windows, in nanoseconds: 300_000_000_000 are five minutes, and 315_360_000_000_000_000
  // are ten years of 365 days

  /** The certificate expires at the end of the validity configured for its type, or, if it is internal, after a
      decade. */
  predicate ExpiresAfter(c: Certificate, issued: int, v: Validity) {
    && (c.certType == Service ==> c.expiration == issued + v.service)
    && (c.certType == IngressGateway ==> c.expiration == issued + v.ingress)
    && (c.certType == Internal ==> c.expiration == issued + 315_360_000_000_000_000)
  }

  lemma NewCertificateExpires(o: IssueOptions, issuers: Issuers, validity: Validity, now: int)
    requires Ready(issuers)
    ensures var c := NewCertificate(o, issuers, validity, now);
            c.certType == o.certType && ExpiresAfter(c, now, validity)
  {
  }

  /** A certificate that is requested for a service identity is stored under it and has the service validity. */
  lemma ServiceCertificateExpires(si: string, issuers: Issuers, validity: Validity, now: int)
    requires Ready(issuers)
    ensures var c := NewCertificate(ForServiceIdentity(si), issuers, validity, now);
            c.cacheKey == si && c.certType == Service && c.expiration == now + validity.service
  {
    NewCertificateExpires(ForServiceIdentity(si), issuers, validity, now);
  }

  /** A certificate of this type, with this much time left, has more than five minutes and more than a third of the
      validity configured for its type. */
  predicate HasTimeLeft(ct: CertType, v: Validity, left: int) {
    && left > 300_000_000_000
    && (ct == Service ==> 3 * left > v.service)
    && (ct == IngressGateway ==> 3 * left > v.ingress)
    && (ct == Internal ==> 3 * left > 315_360_000_000_000_000)
  }

  lemma OutsideWindowIff(ct: CertType, v: Validity, left: int)
    ensures left > RenewBefore(ValidityFor(v, ct), 0) <==> HasTimeLeft(ct, v, left)
  {
  }

  /** A certificate is rotated exactly when it carries other issuers, or when it has no more than five minutes, or no
      more than a third of its validity, left besides the seconds of noise. */
  lemma ShouldRotateIff(c: Certificate, issuers: Issuers, validity: Validity, now: int, noise: int)
    requires Ready(issuers)
    ensures ShouldRotate(c, issuers, validity, now, noise) <==>
            || c.signingIssuerID != issuers.signing.value.id || c.validatingIssuerID != issuers.validating.value.id
            || !HasTimeLeft(c.certType, validity, c.expiration - now - noise * 1_000_000_000)
  {
    OutsideWindowIff(c.certType, validity, c.expiration - now - noise * 1_000_000_000);
  }

  /** With a validity of at least ten minutes the renewal window is shorter than the validity. */
  lemma WindowIsShort(validity: int, noise: int)
    requires validity >= 2 * MIN_ROTATE_BEFORE_EXPIRE && IsNoise(noise)
    ensures MIN_ROTATE_BEFORE_EXPIRE <= RenewBefore(validity, 0) <= RenewBefore(validity, noise)
    ensures RenewBefore(validity, noise) <= RenewBefore(validity, NOISE_SECONDS - 1) < validity
  {
  }

  /** A configured validity is raised to ten minutes if it is shorter. */
  lemma FlooredValidity(d: int)
    ensures CheckValidityDuration(d) >= d && CheckValidityDuration(d) >= 600_000_000_000
    ensures CheckValidityDuration(d) == d || CheckValidityDuration(d) == 600_000_000_000
  {
  }

  predicate LongEnough(v: Validity) {
    v.service >= 2 * MIN_ROTATE_BEFORE_EXPIRE && v.ingress >= 2 * MIN_ROTATE_BEFORE_EXPIRE
  }

  /** A fresh certificate is never due at once, whatever the noise. */
  lemma FreshIsNotDue(o: IssueOptions, issuers: Issuers, validity: Validity, now: int, noise: int)
    requires Ready(issuers) && LongEnough(validity) && IsNoise(noise)
    ensures !ShouldRotate(NewCertificate(o, issuers, validity, now), issuers, validity, now, noise)
  {
    WindowIsShort(ValidityFor(validity, o.certType), noise);
  }

  /** After a successful check the entry carries the current issuers and lies outside its renewal window. */
  lemma CheckedEntryIsSound(key: string, c: Certificate, issuers: Issuers, validity: Validity, now: int, noise: int)
    requires Ready(issuers) && LongEnough(validity) && IsNoise(noise)
    ensures var r := RotatedEntry(key, c, issuers, validity, now, noise, true);
            && StampedWith(r, issuers) && r.certType == c.certType
            && HasTimeLeft(r.certType, validity, r.expiration - now)
  {
    WindowIsShort(ValidityFor(validity, c.certType), noise);
    var r := RotatedEntry(key, c, issuers, validity, now, noise, true);
    OutsideWindowIff(r.certType, validity, r.expiration - now);
  }
}
