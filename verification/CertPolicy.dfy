/** What a signing request must satisfy under a certificate profile. */
module CertPolicy {
  import opened Wrappers
  import opened Crypto
  import opened X509

  const MIN_RSA_KEY_SIZE := 2048

  datatype Profile = Profile(
    code: string, keyUsage: seq<string>, extendedKeyUsage: seq<string>, maxValidityDays: int,
    allowedSanTypes: seq<string>, requiresEmail: bool, isActive: bool)

  /** The submitted text, as the library reads it. */
  datatype CsrPem = Unreadable(text: string) | Readable(csr: Csr)

  datatype IssueError =
    | IntermediateNotReady | UnknownProfile | InvalidCsr | InvalidCsrSignature
    | WeakRsaKey | UnsupportedEcCurve | UnsupportedKeyType
    | SanTypeNotAllowed(typeName: string) | EmailRequired | ValidityExceedsProfileMax
    | SerialAllocationFailed | PredecessorNotFound
    | Uncaught   // an exception of the X.509 library or the database that the services do not catch

  /** The active profile of this code; codes are unique in the table. */
  function FindProfile(profiles: seq<Profile>, code: string): (r: Option<Profile>)
    ensures r.Some? ==> r.value in profiles && r.value.code == code && r.value.isActive
    ensures r.None? ==> forall p :: p in profiles ==> !(p.code == code && p.isActive)
  {
    if profiles == [] then None
    else if profiles[0].code == code && profiles[0].isActive then Some(profiles[0])
    else FindProfile(profiles[1..], code)
  }

  function PublicKeyError(key: PublicKey): Option<IssueError>
  {
    match key.kind
    case Rsa(bits) => if bits < MIN_RSA_KEY_SIZE then Some(WeakRsaKey) else None
    case Secp256r1 => None
    case Secp384r1 => None
    case OtherCurve => Some(UnsupportedEcCurve)
    case OtherKind => Some(UnsupportedKeyType)
  }

  /** The name shown for an alternative name, and whether it is one of the known types. */
  function SanTypeName(san: GeneralName): string
  {
    match san
    case DnsName(_) => "dns"
    case IpAddress(_) => "ip"
    case Rfc822Name(_) => "email"
    case OtherName(typeName, _) => typeName
  }

  predicate SanAllowed(san: GeneralName, allowed: seq<string>)
  {
    !san.OtherName? && SanTypeName(san) in allowed
  }

  function SanString(san: GeneralName): string
  {
    SanTypeName(san) + ":" + san.value
  }

  function SanStrings(sans: seq<GeneralName>): (r: seq<string>)
    ensures |r| == |sans| && forall i :: 0 <= i < |sans| ==> r[i] == SanString(sans[i])
  {
    seq(|sans|, i requires 0 <= i < |sans| => SanString(sans[i]))
  }

  /** The first alternative name of the first n that the profile does not allow. */
  function FirstRefused(sans: seq<GeneralName>, allowed: seq<string>, n: nat): (r: Option<nat>)
    requires n <= |sans|
    ensures r.None? <==> forall i :: 0 <= i < n ==> SanAllowed(sans[i], allowed)
    ensures r.Some? ==> r.value < n && !SanAllowed(sans[r.value], allowed)
    ensures r.Some? ==> forall i :: 0 <= i < r.value ==> SanAllowed(sans[i], allowed)
  {
    if n == 0 then None
    else if FirstRefused(sans, allowed, n - 1).Some? then FirstRefused(sans, allowed, n - 1)
    else if SanAllowed(sans[n - 1], allowed) then None
    else Some(n - 1)
  }

  function SansResult(sans: seq<GeneralName>, allowed: seq<string>): Result<seq<string>, IssueError>
  {
    match FirstRefused(sans, allowed, |sans|)
    case Some(i) => Err(SanTypeNotAllowed(SanTypeName(sans[i])))
    case None => Ok(SanStrings(sans))
  }

  lemma {:induction false} RefusedStays(sans: seq<GeneralName>, allowed: seq<string>, n: nat, m: nat)
    requires n <= m <= |sans| && FirstRefused(sans, allowed, n).Some?
    ensures FirstRefused(sans, allowed, m) == FirstRefused(sans, allowed, n)
    decreases m
  {
    if n < m {
      RefusedStays(sans, allowed, n, m - 1);
    }
  }

  // ----- The same, name by name -----

  /** The type a name is reported with. */
  function Label(san: GeneralName): string
  {
    match san
    case DnsName(_) => "dns"
    case IpAddress(_) => "ip"
    case Rfc822Name(_) => "email"
    case OtherName(typeName, _) => typeName
  }

  predicate NameAllowed(san: GeneralName, allowed: seq<string>)
  {
    match san
    case DnsName(_) => "dns" in allowed
    case IpAddress(_) => "ip" in allowed
    case Rfc822Name(_) => "email" in allowed
    case OtherName(_, _) => false
  }

  function PrintedName(san: GeneralName): string
  {
    match san
    case DnsName(value) => "dns:" + value
    case IpAddress(value) => "ip:" + value
    case Rfc822Name(value) => "email:" + value
    case OtherName(typeName, value) => typeName + ":" + value
  }

  predicate Printed(strings: seq<string>, sans: seq<GeneralName>)
  {
    |strings| == |sans| && forall i :: 0 <= i < |sans| ==> strings[i] == PrintedName(sans[i])
  }

  /** The i-th name is the first that the profile does not allow. */
  predicate FirstForbidden(sans: seq<GeneralName>, allowed: seq<string>, i: nat)
  {
    && i < |sans| && !NameAllowed(sans[i], allowed)
    && forall j :: 0 <= j < i ==> NameAllowed(sans[j], allowed)
  }

  lemma SansExact(sans: seq<GeneralName>, allowed: seq<string>)
    ensures
      var r := SansResult(sans, allowed);
      && (r.Ok? <==> forall i :: 0 <= i < |sans| ==> NameAllowed(sans[i], allowed))
      && (r.Ok? ==> Printed(r.value, sans))
      && (r.Err? ==> exists i: nat :: FirstForbidden(sans, allowed, i) && r.error == SanTypeNotAllowed(Label(sans[i])))
  {
    forall i | 0 <= i < |sans|
      ensures SanAllowed(sans[i], allowed) <==> NameAllowed(sans[i], allowed)
      ensures SanString(sans[i]) == PrintedName(sans[i])
    {
      assert sans[i].DnsName? ==> SanString(sans[i]) == "dns:" + sans[i].value;
      assert sans[i].IpAddress? ==> SanString(sans[i]) == "ip:" + sans[i].value;
      assert sans[i].Rfc822Name? ==> SanString(sans[i]) == "email:" + sans[i].value;
    }
    match FirstRefused(sans, allowed, |sans|)
    case None =>
    case Some(i) => assert FirstForbidden(sans, allowed, i);
  }

  method ValidateSans(sans: seq<GeneralName>, allowed: seq<string>) returns (r: Result<seq<string>, IssueError>)
    ensures r == SansResult(sans, allowed)
    ensures r.Ok? <==> forall i :: 0 <= i < |sans| ==> NameAllowed(sans[i], allowed)
    ensures r.Ok? ==> Printed(r.value, sans)
    ensures r.Err? ==> exists i: nat :: FirstForbidden(sans, allowed, i) && r.error == SanTypeNotAllowed(Label(sans[i]))
  {
    hide NameAllowed, Printed, Label, FirstForbidden, SanAllowed, SanString, SanTypeName;
    SansExact(sans, allowed);
    var strings: seq<string> := [];
    for i := 0 to |sans|
      invariant FirstRefused(sans, allowed, i) == None
      invariant |strings| == i && forall j :: 0 <= j < i ==> strings[j] == SanString(sans[j])
    {
      if !SanAllowed(sans[i], allowed) {
        RefusedStays(sans, allowed, i + 1, |sans|);
        return Err(SanTypeNotAllowed(SanTypeName(sans[i])));
      }
      strings := strings + [SanString(sans[i])];
    }
    assert strings == SanStrings(sans);
    r := Ok(strings);
  }

  const EMAIL_PREFIX := "email:"

  predicate HasEmail(strings: seq<string>)
  {
    exists s :: s in strings && EMAIL_PREFIX <= s
  }

  function ValidatedCsr(pem: CsrPem, profile: Profile): Result<(Csr, seq<string>), IssueError>
  {
    if pem.Unreadable? then Err(InvalidCsr)
    else if !pem.csr.signatureValid then Err(InvalidCsrSignature)
    else if PublicKeyError(pem.csr.publicKey).Some? then Err(PublicKeyError(pem.csr.publicKey).value)
    else
      match SansResult(pem.csr.sans, profile.allowedSanTypes)
      case Err(error) => Err(error)
      case Ok(strings) =>
        if profile.requiresEmail && !HasEmail(strings) then Err(EmailRequired) else Ok((pem.csr, strings))
  }

  /**
   Text starting with "email:" comes from an e-mail name only, so the check on printed names is a check
   on the names themselves.
   */
  lemma EmailPrefixExact(sans: seq<GeneralName>)
    requires forall i :: 0 <= i < |sans| ==> !sans[i].OtherName?
    ensures HasEmail(SanStrings(sans)) <==> exists i :: 0 <= i < |sans| && sans[i].Rfc822Name?
  {
    forall i | 0 <= i < |sans|
      ensures EMAIL_PREFIX <= SanString(sans[i]) <==> sans[i].Rfc822Name?
    {
      var s := SanString(sans[i]);
      assert sans[i].Rfc822Name? ==> s == EMAIL_PREFIX + sans[i].value;
      assert sans[i].DnsName? ==> s[0] == 'd';
      assert sans[i].IpAddress? ==> s[0] == 'i';
    }
    forall i | 0 <= i < |sans|
      ensures SanString(sans[i]) in SanStrings(sans)
    {
      assert SanStrings(sans)[i] == SanString(sans[i]);
    }
  }

  /** A key of a kind and strength that is accepted. */
  predicate StrongKey(key: PublicKey)
  {
    match key.kind
    case Rsa(bits) => bits >= 2048
    case Secp256r1 => true
    case Secp384r1 => true
    case OtherCurve => false
    case OtherKind => false
  }

  predicate NamesAllowed(csr: Csr, profile: Profile)
  {
    forall i :: 0 <= i < |csr.sans| ==> NameAllowed(csr.sans[i], profile.allowedSanTypes)
  }

  predicate NamesAnEmail(csr: Csr)
  {
    exists i :: 0 <= i < |csr.sans| && csr.sans[i].Rfc822Name?
  }

  /** Signed, strong enough, and naming only what the profile allows. */
  predicate Acceptable(pem: CsrPem, profile: Profile)
  {
    && pem.Readable? && pem.csr.signatureValid && StrongKey(pem.csr.publicKey)
    && NamesAllowed(pem.csr, profile) && (profile.requiresEmail ==> NamesAnEmail(pem.csr))
  }

  /** The complaint about a signing request: that of the first check it fails. */
  ghost predicate ComplainsOf(pem: CsrPem, profile: Profile, error: IssueError)
  {
    if pem.Unreadable? then error == InvalidCsr
    else if !pem.csr.signatureValid then error == InvalidCsrSignature
    else if !StrongKey(pem.csr.publicKey) then
      error == match pem.csr.publicKey.kind {
                 case Rsa(_) => WeakRsaKey
                 case OtherKind => UnsupportedKeyType
                 case _ => UnsupportedEcCurve
               }
    else if !NamesAllowed(pem.csr, profile) then
      exists i: nat ::
        FirstForbidden(pem.csr.sans, profile.allowedSanTypes, i) && error == SanTypeNotAllowed(Label(pem.csr.sans[i]))
    else profile.requiresEmail && !NamesAnEmail(pem.csr) && error == EmailRequired
  }

  /**
   A request is accepted exactly when it is acceptable, its names are then printed in order, and otherwise
   the error is that of the first check it fails.
   */
  lemma AcceptedExactly(pem: CsrPem, profile: Profile)
    ensures
      var r := ValidatedCsr(pem, profile);
      && (r.Ok? <==> Acceptable(pem, profile))
      && (r.Ok? ==> r.value.0 == pem.csr && Printed(r.value.1, pem.csr.sans))
      && (r.Err? ==> ComplainsOf(pem, profile, r.error))
  {
    if pem.Readable? {
      SansExact(pem.csr.sans, profile.allowedSanTypes);
      if FirstRefused(pem.csr.sans, profile.allowedSanTypes, |pem.csr.sans|).None? {
        EmailPrefixExact(pem.csr.sans);
      }
    }
  }

  method ValidateCsrForProfile(pem: CsrPem, profile: Profile) returns (r: Result<(Csr, seq<string>), IssueError>)
    ensures r == ValidatedCsr(pem, profile)
    ensures r.Ok? <==> Acceptable(pem, profile)
    ensures r.Ok? ==> r.value.0 == pem.csr && Printed(r.value.1, pem.csr.sans)
    ensures r.Err? ==> ComplainsOf(pem, profile, r.error)
  {
    AcceptedExactly(pem, profile);
    hide Acceptable, ComplainsOf, Printed;
    if pem.Unreadable? {
      return Err(InvalidCsr);
    }
    var csr := pem.csr;
    if !csr.signatureValid {
      return Err(InvalidCsrSignature);
    }
    var keyError := PublicKeyError(csr.publicKey);
    if keyError.Some? {
      return Err(keyError.value);
    }
    var sans := ValidateSans(csr.sans, profile.allowedSanTypes);
    if sans.Err? {
      return Err(sans.error);
    }
    if profile.requiresEmail && !HasEmail(sans.value) {
      return Err(EmailRequired);
    }
    r := Ok((csr, sans.value));
  }
}
