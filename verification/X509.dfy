/**
 Certificates and revocation lists as records, the contents the CA engine puts into them, and the
 checks a relying party makes: section 6.1 of RFC 5280 without dates and policies, and section 6.3.3.
 */
module X509 {
  import opened Wrappers
  import opened Numerals
  import opened Crypto

  const DAY := 86400
  const ROOT_VALIDITY_DAYS := 3653
  const INTERMEDIATE_VALIDITY_DAYS := 1827
  const ROOT_CRL_DAYS := 180
  const INTERMEDIATE_CRL_DAYS := 30
  const ROOT_KEY_BITS := 4096
  const INTERMEDIATE_KEY_BITS := 3072

  // ----- Certificates -----

  datatype NameAttribute = OrganizationName(value: string) | CommonName(value: string)
      | OtherAttribute(oid: string, value: string)

  type Name = seq<NameAttribute>

  datatype GeneralName = DnsName(value: string) | IpAddress(value: string) | Rfc822Name(value: string)
      | OtherName(typeName: string, value: string)

  /** Key identifiers are digests of public keys, here the keys themselves; the AIA and CRL URLs name a CA by id. */
  datatype TbsCertificate = TbsCertificate(
    issuer: Name, subject: Name, publicKey: PublicKey, serial: nat, notBefore: int, notAfter: int,
    ca: bool, pathLength: Option<nat>, keyUsage: set<string>, extendedKeyUsage: seq<string>, sans: seq<GeneralName>,
    subjectKeyId: PublicKey, authorityKeyId: PublicKey, aiaCaId: nat, crlCaId: nat)

  type Certificate = Signed<TbsCertificate>

  datatype Csr = Csr(subject: Name, publicKey: PublicKey, signatureValid: bool, sans: seq<GeneralName>)

  function BuildName(commonName: string, organization: Option<string>): Name
  {
    (if organization.Some? && organization.value != "" then [OrganizationName(organization.value)] else [])
    + [CommonName(commonName)]
  }

  const CA_KEY_USAGE := {"key_cert_sign", "crl_sign"}

  function BuildRootCertificate(key: PrivateKey, subject: Name, caId: nat, serial: nat, now: int): Certificate
  {
    Sign(key, TbsCertificate(
      subject, subject, Pub(key), serial, now - DAY, now + ROOT_VALIDITY_DAYS * DAY,
      true, None, CA_KEY_USAGE, [], [], Pub(key), Pub(key), caId, caId))
  }

  function BuildIntermediateCertificate(
      key: PublicKey, rootKey: PrivateKey, root: Certificate, subject: Name, rootCaId: nat, serial: nat, now: int)
    : Certificate
  {
    Sign(rootKey, TbsCertificate(
      root.content.subject, subject, key, serial, now - DAY, now + INTERMEDIATE_VALIDITY_DAYS * DAY,
      true, Some(0), CA_KEY_USAGE, [], [], key, root.content.publicKey, rootCaId, rootCaId))
  }

  const KEY_USAGE_FIELDS := {
    "digital_signature", "content_commitment", "key_encipherment", "data_encipherment", "key_agreement",
    "key_cert_sign", "crl_sign", "encipher_only", "decipher_only"
  }
  const EXTENDED_KEY_USAGES := {"server_auth", "client_auth", "email_protection", "code_signing"}

  /** The library refuses unknown names, and the two cipher-only bits without key agreement. */
  predicate KeyUsageOk(names: seq<string>)
  {
    && (forall n :: n in names ==> n in KEY_USAGE_FIELDS)
    && ("encipher_only" in names || "decipher_only" in names ==> "key_agreement" in names)
  }

  predicate ExtendedKeyUsageOk(names: seq<string>)
  {
    forall n :: n in names ==> n in EXTENDED_KEY_USAGES
  }

  /** The key usages of section 4.2.1.3 of RFC 5280, in the spelling of the library. */
  predicate KnownUsage(name: string)
  {
    || name == "digital_signature" || name == "content_commitment" || name == "key_encipherment"
    || name == "data_encipherment" || name == "key_agreement" || name == "key_cert_sign" || name == "crl_sign"
    || name == "encipher_only" || name == "decipher_only"
  }

  predicate KnownPurpose(name: string)
  {
    name == "server_auth" || name == "client_auth" || name == "email_protection" || name == "code_signing"
  }

  lemma UsagesExact(names: seq<string>)
    ensures KeyUsageOk(names) <==>
              && (forall n :: n in names ==> KnownUsage(n))
              && ("encipher_only" in names || "decipher_only" in names ==> "key_agreement" in names)
    ensures ExtendedKeyUsageOk(names) <==> forall n :: n in names ==> KnownPurpose(n)
  {
  }

  /** None stands for a ValueError of the certificate builder. */
  function BuildLeafCertificate(
      csr: Csr, key: PrivateKey, issuer: Certificate, serialHex: string, days: int,
      keyUsage: seq<string>, extendedKeyUsage: seq<string>, caId: nat, now: int): Option<Certificate>
    requires IsHex(serialHex)
  {
    var serial := HexValue(serialHex);
    if !KeyUsageOk(keyUsage) || !ExtendedKeyUsageOk(extendedKeyUsage) || serial == 0 || days * DAY < -DAY then None
    else
      Some(Sign(key, TbsCertificate(
        issuer.content.subject, csr.subject, csr.publicKey, serial, now - DAY, now + days * DAY,
        false, None, (set n | n in keyUsage), extendedKeyUsage, csr.sans,
        csr.publicKey, issuer.content.publicKey, caId, caId)))
  }

  // ----- Revocation lists -----

  datatype ReasonFlag =
    | Unspecified | KeyCompromise | AffiliationChanged | Superseded | CessationOfOperation | PrivilegeWithdrawn

  const REASON_FLAGS: map<string, ReasonFlag> := map[
    "unspecified" := Unspecified,
    "key_compromise" := KeyCompromise,
    "affiliation_changed" := AffiliationChanged,
    "superseded" := Superseded,
    "cessation_of_operation" := CessationOfOperation,
    "privilege_withdrawn" := PrivilegeWithdrawn
  ]

  /** The names of the reason codes of section 5.3.1 of RFC 5280 that this program uses, in its spelling. */
  function FlagName(flag: ReasonFlag): string
  {
    match flag
    case Unspecified => "unspecified"
    case KeyCompromise => "key_compromise"
    case AffiliationChanged => "affiliation_changed"
    case Superseded => "superseded"
    case CessationOfOperation => "cessation_of_operation"
    case PrivilegeWithdrawn => "privilege_withdrawn"
  }

  predicate KnownReason(reason: string)
  {
    || reason == FlagName(Unspecified) || reason == FlagName(KeyCompromise) || reason == FlagName(AffiliationChanged)
    || reason == FlagName(Superseded) || reason == FlagName(CessationOfOperation)
    || reason == FlagName(PrivilegeWithdrawn)
  }

  /** The table holds exactly the names of the reason codes, each with its own code. */
  lemma ReasonFlagsExact(reason: string)
    ensures reason in REASON_FLAGS <==> KnownReason(reason)
    ensures reason in REASON_FLAGS ==> FlagName(REASON_FLAGS[reason]) == reason
  {
  }

  /** No two reason codes have the same name. */
  lemma FlagNameInjective(a: ReasonFlag, b: ReasonFlag)
    ensures FlagName(a) == FlagName(b) <==> a == b
  {
    var lengths := (|FlagName(a)|, |FlagName(b)|);
    assert a != b && lengths.0 == lengths.1 ==> FlagName(a)[0] != FlagName(b)[0];
  }

  datatype CrlEntry = CrlEntry(serial: nat, date: int, reason: ReasonFlag)

  datatype TbsCrl = TbsCrl(issuer: Name, thisUpdate: int, nextUpdate: int, number: nat, entries: seq<CrlEntry>)

  type Crl = Signed<TbsCrl>

  // ----- Path validation -----

  datatype PathState = PathState(issuer: Name, key: PublicKey, maxPathLength: int)

  predicate SelfIssued(c: Certificate)
  {
    c.content.issuer == c.content.subject
  }

  /** Basic certificate processing: the signature, the issuer name, and the key identifier chain. */
  predicate CertificateOk(st: PathState, c: Certificate)
  {
    Verifies(c, st.key) && c.content.issuer == st.issuer && c.content.authorityKeyId == st.key
  }

  predicate CaCertificateOk(c: Certificate)
  {
    c.content.ca && "key_cert_sign" in c.content.keyUsage && c.content.subjectKeyId == c.content.publicKey
  }

  /** Preparation for the next certificate. */
  function Prepared(st: PathState, c: Certificate): PathState
  {
    var left := if SelfIssued(c) then st.maxPathLength else st.maxPathLength - 1;
    PathState(c.content.subject, c.content.publicKey,
              if c.content.pathLength.Some? && c.content.pathLength.value < left then c.content.pathLength.value
              else left)
  }

  predicate PathValid(st: PathState, path: seq<Certificate>)
    decreases |path|
  {
    path == [] ||
    (CertificateOk(st, path[0]) &&
     (|path| == 1 ||
      (CaCertificateOk(path[0]) && (SelfIssued(path[0]) || st.maxPathLength > 0)
       && PathValid(Prepared(st, path[0]), path[1..]))))
  }

  function Reversed<T>(s: seq<T>): seq<T>
  {
    if s == [] then [] else Reversed(s[1..]) + [s[0]]
  }

  /** A chain listed leaf first validates with its last certificate as the trust anchor. */
  predicate ChainValid(chain: seq<Certificate>)
  {
    && chain != []
    && var anchor := chain[|chain| - 1];
       var path := Reversed(chain[..|chain| - 1]);
       && Verifies(anchor, anchor.content.publicKey) && SelfIssued(anchor) && CaCertificateOk(anchor)
       && (anchor.content.pathLength.Some? ==> |path| <= anchor.content.pathLength.value + 1)
       && PathValid(PathState(anchor.content.subject, anchor.content.publicKey, |path|), path)
  }

  /** The list is one a relying party accepts for this certificate, issued by `issuer`. */
  predicate CrlUsable(crl: Crl, c: Certificate, issuer: Certificate)
  {
    && crl.content.issuer == c.content.issuer == issuer.content.subject
    && "crl_sign" in issuer.content.keyUsage
    && Verifies(crl, issuer.content.publicKey)
    && Verifies(c, issuer.content.publicKey)
  }

  predicate Lists(crl: Crl, serial: nat)
  {
    exists e :: e in crl.content.entries && e.serial == serial
  }
}
