/** Signing identities (aws-mls-core/src/identity/signing_identity.rs): a
    signature public key paired with a credential, with a derived codec that
    writes the fields in declaration order. The key's own codec is a parameter. */
module SigningIdentities {
  import opened Wrappers
  import opened Tls
  import opened Credentials

  // Defined in a file that is not part of this model.
  type SignaturePublicKey(==)

  datatype SigningIdentity = SigningIdentity(signature_key: SignaturePublicKey, credential: Credential)

  /** `SigningIdentity::new(credential, signature_key)`: the arguments come in
      the reverse of the field order. */
  function New(credential: Credential, signature_key: SignaturePublicKey): (s: SigningIdentity)
    ensures s.credential == credential && s.signature_key == signature_key
  {
    SigningIdentity(signature_key, credential)
  }

  /** The derived `PartialEq`: equal exactly when both fields are. */
  lemma EqualityFieldWise(a: SigningIdentity, b: SigningIdentity)
    ensures a == b <==> a.signature_key == b.signature_key && a.credential == b.credential
  {
  }

  datatype SigningIdentityCodecs = SigningIdentityCodecs(
    key: Codec<SignaturePublicKey>,
    credential: CredentialCodecs)

  /** The derived `TlsSize`: the sum of the two field sizes. */
  function SigningIdentitySize(cs: SigningIdentityCodecs, s: SigningIdentity): nat {
    cs.key.size(s.signature_key) + CredentialSize(cs.credential, s.credential)
  }

  /** The derived `TlsSerialize`: `signature_key`, then `credential`. */
  function SigningIdentityEmission(cs: SigningIdentityCodecs, s: SigningIdentity): (e: Emission)
    ensures Counted(e)
    ensures e.result.Ok? <==>
      cs.key.encode(s.signature_key).Ok? && CredentialEmission(cs.credential, s.credential).result.Ok?
    ensures e.result.Ok? ==>
      e.written == cs.key.encode(s.signature_key).value + CredentialEmission(cs.credential, s.credential).written
  {
    Then(Emit(cs.key.encode(s.signature_key)), CredentialEmission(cs.credential, s.credential))
  }

  lemma SigningIdentitySizeMatches(cs: SigningIdentityCodecs, s: SigningIdentity)
    requires SizeExactAt(cs.key, s.signature_key)
    requires s.credential.Basic? ==> SizeExactAt(cs.credential.basic, s.credential.basic)
    requires s.credential.X509? ==> SizeExactAt(cs.credential.chain, s.credential.chain)
    ensures SigningIdentityEmission(cs, s).result.Ok? ==>
      SigningIdentityEmission(cs, s).result == Ok(SigningIdentitySize(cs, s))
      && |SigningIdentityEmission(cs, s).written| == SigningIdentitySize(cs, s)
  {
    CredentialSizeMatches(cs.credential, s.credential);
  }

  /** The derived `TlsDeserialize`: the two fields in declaration order. */
  function DecodeSigningIdentity(cs: SigningIdentityCodecs, bs: Bytes): (r: Result<(SigningIdentity, Bytes), CodecError>)
    ensures cs.key.decode(bs).Err? ==> r == Err(cs.key.decode(bs).error)
    ensures r.Ok? <==> cs.key.decode(bs).Ok? && DecodeCredential(cs.credential, cs.key.decode(bs).value.1).Ok?
    ensures r.Ok? ==> r.value.0.signature_key == cs.key.decode(bs).value.0
    ensures r.Ok? ==> DecodeCredential(cs.credential, cs.key.decode(bs).value.1) == Ok((r.value.0.credential, r.value.1))
  {
    match cs.key.decode(bs)
    case Err(e) => Err(e)
    case Ok((key, afterKey)) =>
      match DecodeCredential(cs.credential, afterKey)
      case Err(e) => Err(e)
      case Ok((credential, afterCredential)) => Ok((SigningIdentity(key, credential), afterCredential))
  }

  /** A signing identity whose key codec round-trips, and whose credential's
      inner codec does, survives encoding and decoding. */
  lemma {:induction false} SigningIdentityRoundTrip(cs: SigningIdentityCodecs, s: SigningIdentity, rest: Bytes)
    requires RoundTripsAt(cs.key, s.signature_key)
    requires InnerRoundTripsAt(cs.credential, s.credential)
    requires SigningIdentityEmission(cs, s).result.Ok?
    ensures DecodeSigningIdentity(cs, SigningIdentityEmission(cs, s).written + rest) == Ok((s, rest))
  {
    var k := cs.key.encode(s.signature_key).value;
    var c := CredentialEmission(cs.credential, s.credential).written;
    assert SigningIdentityEmission(cs, s).written + rest == k + (c + rest);
    assert cs.key.decode(k + (c + rest)) == Ok((s.signature_key, c + rest));
    CredentialRoundTrip(cs.credential, s.credential, rest);
  }
}
