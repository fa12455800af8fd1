/**
 Ideal cryptography: a key pair is one symbol, a signature verifies exactly under the key that made
 it and for the content it was made for, and an authenticated ciphertext opens exactly under the key,
 nonce and associated data it was made with. Key derivation is injective.

 On top of it, the envelopes around stored keys and the app-wide master key.
 */
module Crypto {
  import opened Wrappers
  import opened Numerals

  // ----- Signatures -----

  datatype KeyKind = Rsa(bits: nat) | Secp256r1 | Secp384r1 | OtherCurve | OtherKind

  datatype PrivateKey = PrivateKey(kind: KeyKind, id: nat)

  datatype PublicKey = PublicKey(kind: KeyKind, id: nat)

  function Pub(k: PrivateKey): PublicKey
  {
    PublicKey(k.kind, k.id)
  }

  datatype Signature<+T> = Signature(key: PrivateKey, content: T)

  datatype Signed<+T> = Signed(content: T, signature: Signature<T>)

  function Sign<T>(k: PrivateKey, content: T): Signed<T>
  {
    Signed(content, Signature(k, content))
  }

  predicate Verifies<T(==)>(s: Signed<T>, key: PublicKey)
  {
    Pub(s.signature.key) == key && s.signature.content == s.content
  }

  /** A signature verifies under the public key of the key that made it and no other, and for its own content only. */
  lemma SignatureExact<T>(k: PrivateKey, other: PrivateKey, content: T, presented: T)
    ensures Verifies(Sign(k, content).(content := presented), Pub(other)) <==> other == k && presented == content
  {
  }

  // ----- Envelopes -----

  datatype MasterKey = MasterKey(id: nat)

  datatype Argon2 = Argon2(timeCost: nat, memoryCostKib: nat, parallelism: nat)

  datatype Kek = FromMaster(key: MasterKey) | FromPassphrase(passphrase: string, salt: nat, params: Argon2)

  datatype Ciphertext<+T> = Ciphertext(kek: Kek, nonce: nat, aad: string, plaintext: T)

  /** Fields missing from stored metadata are None. */
  datatype Argon2Meta = Argon2Meta(timeCost: Option<nat>, memoryCostKib: Option<nat>, parallelism: Option<nat>)

  datatype WrapMeta = WrapMeta(nonce: nat, salt: Option<nat>, argon2: Argon2Meta)

  datatype Wrapped<+T> = Wrapped(ciphertext: Ciphertext<T>, meta: WrapMeta)

  const NO_PARAMS := Argon2Meta(None, None, None)

  function AeadUnwrap<T>(c: Ciphertext<T>, kek: Kek, nonce: nat, aad: string): Option<T>
  {
    if c.kek == kek && c.nonce == nonce && c.aad == aad then Some(c.plaintext) else None
  }

  function OrElse(o: Option<nat>, default: nat): nat
  {
    if o.Some? then o.value else default
  }

  function ParamsOf(meta: Argon2Meta, defaults: Argon2): Argon2
  {
    Argon2(OrElse(meta.timeCost, defaults.timeCost),
           OrElse(meta.memoryCostKib, defaults.memoryCostKib),
           OrElse(meta.parallelism, defaults.parallelism))
  }

  function WrapWithPassphrase<T>(
      plaintext: T, passphrase: string, aad: string, salt: nat, nonce: nat, defaults: Argon2): Wrapped<T>
  {
    Wrapped(
      Ciphertext(FromPassphrase(passphrase, salt, defaults), nonce, aad, plaintext),
      WrapMeta(nonce, Some(salt),
               Argon2Meta(Some(defaults.timeCost), Some(defaults.memoryCostKib), Some(defaults.parallelism))))
  }

  function UnwrapWithPassphrase<T>(w: Wrapped<T>, passphrase: string, aad: string, defaults: Argon2): Option<T>
  {
    if w.meta.salt.None? then None
    else
      var kek := FromPassphrase(passphrase, w.meta.salt.value, ParamsOf(w.meta.argon2, defaults));
      AeadUnwrap(w.ciphertext, kek, w.meta.nonce, aad)
  }

  function WrapWithMasterKey<T>(plaintext: T, key: MasterKey, aad: string, nonce: nat): Wrapped<T>
  {
    Wrapped(Ciphertext(FromMaster(key), nonce, aad, plaintext), WrapMeta(nonce, None, NO_PARAMS))
  }

  function UnwrapWithMasterKey<T>(w: Wrapped<T>, key: MasterKey, aad: string): Option<T>
  {
    AeadUnwrap(w.ciphertext, FromMaster(key), w.meta.nonce, aad)
  }

  /** Associated data naming the row a wrapped CA key belongs to. */
  function CaAad(caId: nat): string
  {
    "ca:" + Decimal(caId)
  }

  lemma CaAadInjective(a: nat, b: nat)
    ensures CaAad(a) == CaAad(b) <==> a == b
  {
    if CaAad(a) == CaAad(b) {
      assert CaAad(a)[3..] == Decimal(a);
      assert CaAad(b)[3..] == Decimal(b);
      DecimalInjective(a, b);
    }
  }

  /**
   A key wrapped for one CA row under a passphrase opens with that passphrase in that row and nowhere
   else, whatever the default derivation parameters have become since.
   */
  lemma PassphraseEnvelope<T>(
      plaintext: T, passphrase: string, caId: nat, salt: nat, nonce: nat, then_: Argon2,
      tried: string, row: nat, now: Argon2)
    ensures
      var plain := UnwrapWithPassphrase(
                      WrapWithPassphrase(plaintext, passphrase, CaAad(caId), salt, nonce, then_), tried, CaAad(row),
                      now);
      && (plain == Some(plaintext) <==> tried == passphrase && row == caId)
      && (plain == None <==> !(tried == passphrase && row == caId))
  {
    CaAadInjective(caId, row);
  }

  /** An envelope whose metadata lack derivation parameters is opened with the configured ones. */
  lemma OldEnvelope<T>(
      plaintext: T, passphrase: string, aad: string, salt: nat, nonce: nat, then_: Argon2, tried: string, now: Argon2)
    ensures
      var w := WrapWithPassphrase(plaintext, passphrase, aad, salt, nonce, then_);
      var old_ := w.(meta := w.meta.(argon2 := NO_PARAMS));
      UnwrapWithPassphrase(old_, tried, aad, now) ==
      if tried == passphrase && now == then_ then Some(plaintext) else None
  {
  }

  /** A ciphertext opens under its own key, nonce and associated data only. */
  lemma AeadExact<T>(c: Ciphertext<T>, kek: Kek, nonce: nat, aad: string)
    ensures AeadUnwrap(c, kek, nonce, aad) == Some(c.plaintext) <==> kek == c.kek && nonce == c.nonce && aad == c.aad
    ensures AeadUnwrap(c, kek, nonce, aad).Some? ==> kek == c.kek && nonce == c.nonce && aad == c.aad
  {
  }

  /** The associated data of a row is "ca:" and the row's id in decimal. */
  lemma CaAadExact(caId: nat)
    ensures CaAad(caId)[..3] == "ca:"
    ensures forall i :: 3 <= i < |CaAad(caId)| ==> '0' <= CaAad(caId)[i] <= '9'
    ensures DecimalValue(CaAad(caId)[3..]) == caId
  {
    DecimalRoundTrip(caId);
    assert CaAad(caId)[3..] == Decimal(caId);
  }

  lemma MasterKeyEnvelope<T>(plaintext: T, key: MasterKey, caId: nat, nonce: nat, tried: MasterKey, row: nat)
    ensures
      var plain := UnwrapWithMasterKey(WrapWithMasterKey(plaintext, key, CaAad(caId), nonce), tried, CaAad(row));
      && (plain == Some(plaintext) <==> tried == key && row == caId)
      && (plain == None <==> !(tried == key && row == caId))
  {
    CaAadInjective(caId, row);
  }

  // ----- The master key -----

  /** The key from the environment if set, else from the secrets file, else a fresh one that goes into the file. */
  function CurrentMasterKey(env: Option<MasterKey>, file: Option<MasterKey>): Option<MasterKey>
  {
    if env.Some? then env else file
  }

  function FileAfterLoad(env: Option<MasterKey>, file: Option<MasterKey>, drawn: MasterKey): (file': Option<MasterKey>)
    ensures CurrentMasterKey(env, file').Some?
    ensures CurrentMasterKey(env, file).Some? ==> file' == file
  {
    if env.None? && file.None? then Some(drawn) else file
  }
}
