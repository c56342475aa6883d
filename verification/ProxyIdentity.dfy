/** How a proxy's identity is printed into its xDS certificate and read back from a connection. */
module ProxyIdentity {
  import opened GoStrings
  import opened Wrappers
  import opened Identity
  import opened Certificates

  datatype ParseError = InvalidCertificateCN | InvalidUuid | InvalidSpiffeID

  datatype ProxyMeta = ProxyMeta(kind: string, uuid: string, identity: ServiceIdentity)

  /** The common-name prefix of a proxy's xDS certificate: "<uuid>.<kind>.<name>.<namespace>". */
  function NewXDSCertCNPrefix(uuid: string, kind: string, si: ServiceIdentity): string {
    uuid + "." + kind + "." + si
  }

  /** Reads a common name. `parseUuid` stands for uuid.Parse; a UUID is represented by its canonical text. */
  function GetCertificateCommonNameMeta(cn: string,
                                        parseUuid: string -> Option<string>): Result<ProxyMeta, ParseError> {
    var chunks := SplitN(cn, '.', 5);
    if |chunks| < 4 then Err(InvalidCertificateCN)
    else
      match parseUuid(chunks[0])
      case None => Err(InvalidUuid)
      case Some(uuid) =>
        if chunks[1] == "" || chunks[2] == "" || chunks[3] == "" then Err(InvalidCertificateCN)
        else Ok(ProxyMeta(chunks[1], uuid, New(chunks[2], chunks[3])))
  }

  /** Reads the identity from the path of the only URI SAN. */
  function ExtractSpiffeID(uris: seq<Url>): Result<ServiceIdentity, ParseError> {
    if |uris| != 1 then Err(InvalidSpiffeID)
    else
      var parts := Split(TrimPrefix(uris[0].path, "/"), '/');
      if |parts| != 4 then Err(InvalidSpiffeID)
      else Ok(parts[2] + "." + parts[3])
  }

  function XdsOptions(uuid: string, kind: string, name: string, namespace: string, trustDomain: string,
                      spiffeEnabled: bool): IssueOptions {
    NO_OPTIONS.(commonNamePrefix := NewXDSCertCNPrefix(uuid, kind, New(name, namespace)), trustDomain := trustDomain,
      spiffeEnabled := spiffeEnabled)
  }

  /** The prefix is the four parts joined by dots. */
  lemma PrefixIsJoin(uuid: string, kind: string, name: string, namespace: string)
    ensures NewXDSCertCNPrefix(uuid, kind, New(name, namespace)) == Join([uuid, kind, name, namespace], '.')
  {
    assert Join([name, namespace], '.') == name + ['.'] + namespace;
    assert [kind, name, namespace][1..] == [name, namespace];
    assert [uuid, kind, name, namespace][1..] == [kind, name, namespace];
    var prefix := NewXDSCertCNPrefix(uuid, kind, New(name, namespace));
    assert prefix == uuid + ['.'] + (kind + ['.'] + (name + ['.'] + namespace));
  }

  lemma CommonNameIsJoin(uuid: string, kind: string, name: string, namespace: string, trustDomain: string,
                         spiffeEnabled: bool)
    ensures CommonName(XdsOptions(uuid, kind, name, namespace, trustDomain, spiffeEnabled))
         == Join([uuid, kind, name, namespace, trustDomain], '.')
  {
    assert Join([namespace, trustDomain], '.') == namespace + ['.'] + trustDomain;
    assert [name, namespace, trustDomain][1..] == [namespace, trustDomain];
    assert Join([name, namespace, trustDomain], '.') == name + ['.'] + (namespace + ['.'] + trustDomain);
    assert [kind, name, namespace, trustDomain][1..] == [name, namespace, trustDomain];
    assert [uuid, kind, name, namespace, trustDomain][1..] == [kind, name, namespace, trustDomain];
    var prefix := NewXDSCertCNPrefix(uuid, kind, New(name, namespace));
    assert |prefix| > 0;
    assert prefix + "." + trustDomain
        == uuid + ['.'] + (kind + ['.'] + (name + ['.'] + (namespace + ['.'] + trustDomain)));
  }

  /** Common names round-trip: for dot-free parts and any trust domain, parsing the name built for a proxy returns
      that proxy's kind, UUID and identity exactly when kind, name and namespace are non-empty, and fails otherwise. */
  lemma CommonNameRoundTrip(uuid: string, kind: string, name: string, namespace: string, trustDomain: string,
                            spiffeEnabled: bool, parseUuid: string -> Option<string>)
    requires '.' !in uuid && '.' !in kind && '.' !in name && '.' !in namespace
    requires parseUuid(uuid) == Some(uuid)
    ensures var cn := CommonName(XdsOptions(uuid, kind, name, namespace, trustDomain, spiffeEnabled));
            GetCertificateCommonNameMeta(cn, parseUuid) ==
            if kind != "" && name != "" && namespace != "" then Ok(ProxyMeta(kind, uuid, New(name, namespace)))
            else Err(InvalidCertificateCN)
  {
    CommonNameIsJoin(uuid, kind, name, namespace, trustDomain, spiffeEnabled);
    SplitNJoin([uuid, kind, name, namespace, trustDomain], '.');
  }

  /** The common name consists of these four parts, and possibly more behind them. */
  ghost predicate HasParts(cn: string, uuid: string, kind: string, name: string, namespace: string) {
    && '.' !in uuid && '.' !in kind && '.' !in name && '.' !in namespace
    && (cn == Join([uuid, kind, name, namespace], '.') ||
        exists rest: string :: cn == Join([uuid, kind, name, namespace, rest], '.'))
  }

  /** How any common name is read: by its first four parts, of which the first must be a UUID and the others must not be
      empty; and not at all if it has fewer. */
  lemma CommonNameIsRead(cn: string, uuid: string, kind: string, name: string, namespace: string,
                         parseUuid: string -> Option<string>)
    ensures HasParts(cn, uuid, kind, name, namespace) ==>
              GetCertificateCommonNameMeta(cn, parseUuid) ==
              if parseUuid(uuid).None? then Err(InvalidUuid)
              else if kind == "" || name == "" || namespace == "" then Err(InvalidCertificateCN)
              else Ok(ProxyMeta(kind, parseUuid(uuid).value, name + "." + namespace))
    ensures Occurrences(cn, '.') < 3 ==> GetCertificateCommonNameMeta(cn, parseUuid) == Err(InvalidCertificateCN)
  {
    SplitLength(cn, '.');
    if Occurrences(cn, '.') < 3 {
      SplitNIsSplit(cn, '.', 5);
    }
    if HasParts(cn, uuid, kind, name, namespace) {
      PartsAreChunks(cn, uuid, kind, name, namespace);
    }
  }

  lemma PartsAreChunks(cn: string, uuid: string, kind: string, name: string, namespace: string)
    requires HasParts(cn, uuid, kind, name, namespace)
    ensures |SplitN(cn, '.', 5)| >= 4 && SplitN(cn, '.', 5)[..4] == [uuid, kind, name, namespace]
  {
    if cn == Join([uuid, kind, name, namespace], '.') {
      SplitJoin([uuid, kind, name, namespace], '.');
      SplitLength(cn, '.');
      SplitNIsSplit(cn, '.', 5);
    } else {
      var rest: string :| cn == Join([uuid, kind, name, namespace, rest], '.');
      SplitNJoin([uuid, kind, name, namespace, rest], '.');
    }
  }

  lemma PrefixDots(uuid: string, kind: string, name: string, namespace: string)
    requires PlainLabel(uuid) && PlainLabel(kind) && PlainLabel(name) && PlainLabel(namespace)
    ensures Occurrences(NewXDSCertCNPrefix(uuid, kind, New(name, namespace)), '.') == 3
  {
    PrefixIsJoin(uuid, kind, name, namespace);
    SplitJoin([uuid, kind, name, namespace], '.');
    SplitLength(NewXDSCertCNPrefix(uuid, kind, New(name, namespace)), '.');
  }

  /** When the prefix ends in the trust domain, trimming it off leaves too few parts. */
  lemma TrimmedPathIsShort(prefix: string, trustDomain: string)
    requires HasSuffix(prefix, "." + trustDomain) && '/' !in prefix && Occurrences(prefix, '.') == 3
    ensures Occurrences(ReplaceAll(TrimSuffix(prefix, "." + trustDomain), '.', '/'), '/') < 3
  {
    var suffix := "." + trustDomain;
    var kept := TrimSuffix(prefix, suffix);
    assert prefix == kept + suffix;
    OccurrencesConcat(kept, suffix, '.');
    OccurrencesReplaced(kept, '.', '/');
  }

  /** The path as x509 hands it back: as issued, or with the slash that URL syntax puts before it. */
  predicate DeliveredPath(issued: string, delivered: string) {
    delivered == issued || delivered == "/" + issued
  }

  /** Reading the URI SANs fails exactly when there is not one of them, or its path does not have four parts. */
  lemma SpiffeFailsIff(uris: seq<Url>)
    ensures ExtractSpiffeID(uris) == Err(InvalidSpiffeID) <==>
            |uris| != 1 || Occurrences(TrimPrefix(uris[0].path, "/"), '/') != 3
    ensures ExtractSpiffeID(uris).Err? ==> ExtractSpiffeID(uris).error == InvalidSpiffeID
  {
    if |uris| == 1 {
      SplitLength(TrimPrefix(uris[0].path, "/"), '/');
    }
  }

  lemma ShortPathIsRejected(issued: string, trustDomain: string, delivered: string)
    requires DeliveredPath(issued, delivered) && (issued != "" ==> issued[0] != '/') && Occurrences(issued, '/') < 3
    ensures ExtractSpiffeID([Url("spiffe", trustDomain, delivered)]) == Err(InvalidSpiffeID)
  {
    assert TrimPrefix(delivered, "/") == issued;
    SplitLength(issued, '/');
  }

  lemma FullPathIsRead(uuid: string, kind: string, name: string, namespace: string, trustDomain: string,
                       delivered: string)
    requires PlainLabel(uuid) && PlainLabel(kind) && PlainLabel(name) && PlainLabel(namespace) && uuid != ""
    requires DeliveredPath(Join([uuid, kind, name, namespace], '/'), delivered)
    ensures ExtractSpiffeID([Url("spiffe", trustDomain, delivered)]) == Ok(New(name, namespace))
  {
    var issued := Join([uuid, kind, name, namespace], '/');
    SplitJoin([uuid, kind, name, namespace], '/');
    assert issued[0] == uuid[0] != '/';
    assert TrimPrefix(delivered, "/") == issued;
  }

  /** SPIFFE IDs round-trip: the identity read from the URI SAN is the one the certificate was issued for exactly when
      the common-name prefix does not end in "." plus the trust domain; when it does, parsing fails. */
  lemma SpiffeRoundTrip(uuid: string, kind: string, name: string, namespace: string, trustDomain: string,
                        delivered: string)
    requires PlainLabel(uuid) && PlainLabel(kind) && PlainLabel(name) && PlainLabel(namespace)
    requires uuid != ""
    requires DeliveredPath(UriSan(XdsOptions(uuid, kind, name, namespace, trustDomain, true)).path, delivered)
    ensures ExtractSpiffeID([Url("spiffe", trustDomain, delivered)])
         == if HasSuffix(NewXDSCertCNPrefix(uuid, kind, New(name, namespace)),
           "." + trustDomain) then Err(InvalidSpiffeID)
            else Ok(New(name, namespace))
  {
    var prefix := NewXDSCertCNPrefix(uuid, kind, New(name, namespace));
    var issued := UriSan(XdsOptions(uuid, kind, name, namespace, trustDomain, true)).path;
    if HasSuffix(prefix, "." + trustDomain) {
      PrefixDots(uuid, kind, name, namespace);
      TrimmedPathIsShort(prefix, trustDomain);
      ShortPathIsRejected(issued, trustDomain, delivered);
    } else {
      PrefixIsJoin(uuid, kind, name, namespace);
      ReplaceJoin([uuid, kind, name, namespace], '.', '/');
      FullPathIsRead(uuid, kind, name, namespace, trustDomain, delivered);
    }
  }
}
