/** Key package validation (aws-mls/src/key_package/validator.rs): a
    fail-fast sequence of checks on a received key package, in the order
    section 10.1 of RFC 9420 lists them, returning the package's expiration on
    success. Signature verification, the KEM public-key check and the leaf-node
    validator are parameters of the validator. */
module KeyPackageValidation {
  import opened Wrappers
  import opened Tls
  import opened CipherSuites
  import SigningIdentities

  // Types defined in files that are not part of this model.
  type MlsTime
  type ExtensionType
  type ProposalType
  type CredentialError
  type ExtensionError
  type KeyPackageError
  type SignatureError
  type LeafNodeValidationError
  type LeafNodeRest
  type KeyPackageRest

  datatype Lifetime = Lifetime(not_before: uint64, not_after: uint64)

  datatype LeafNodeSource = KeyPackage(lifetime: Lifetime) | Update | Commit(parent_hash: Bytes)

  /** The parts of a leaf node the validator reads; `rest` stands for the others. */
  datatype LeafNode = LeafNode(
    public_key: Bytes,
    signing_identity: SigningIdentities.SigningIdentity,
    leaf_node_source: LeafNodeSource,
    rest: LeafNodeRest)

  datatype KeyPackage = KeyPackage(
    version: MaybeProtocolVersion,
    cipher_suite: MaybeCipherSuite,
    hpke_init_key: Bytes,
    leaf_node: LeafNode,
    rest: KeyPackageRest)

  /** The only context this validator asks for; the leaf-node validator's
      other contexts are not part of this model. */
  datatype ValidationContext = Add(lifetime_check_time: Option<MlsTime>)

  datatype KeyPackageValidationError =
    | SerializationError(codec: CodecError)
    | CredentialError(credential: CredentialError)
    | ExtensionError(extension: ExtensionError)
    | KeyPackageError(key_package: KeyPackageError)
    | SignatureError(signature: SignatureError)
    | LeafNodeValidationError(leaf_node: LeafNodeValidationError)
    | MissingKeyLifetime
    | InvalidKeyLifetime(time: MlsTime, lifetime: Lifetime)
    | RequiredExtensionNotFound(extension_type: ExtensionType)
    | RequiredProposalNotFound(proposal_type: ProposalType)
    | InvalidCipherSuite(found_suite: MaybeCipherSuite, expected_suite: CipherSuite)
    | InvalidProtocolVersion(found_version: MaybeProtocolVersion, expected_version: ProtocolVersion)
    | InvalidInitKey
    | InitLeafKeyEquality

  datatype KeyPackageValidationOptions = KeyPackageValidationOptions(apply_lifetime_check: Option<MlsTime>)

  datatype KeyPackageValidationOutput = KeyPackageValidationOutput(expiration_timestamp: uint64)

  /** `KeyPackageValidator`: the expected protocol version, the provider's
      cipher suite, and the checks it delegates. */
  datatype KeyPackageValidator = KeyPackageValidator(
    protocol_version: ProtocolVersion,
    cipher_suite: CipherSuite,
    verify: (KeyPackage, SigningIdentities.SignaturePublicKey) -> Result<(), SignatureError>,
    kem_public_key_validate: Bytes -> bool,
    leaf_node_check: (LeafNode, ValidationContext) -> Result<(), LeafNodeValidationError>)

  /** `check_signature`: the package is verified under the signature key of
      its own leaf node's signing identity. */
  function CheckSignature(v: KeyPackageValidator, p: KeyPackage): (r: Result<(), KeyPackageValidationError>)
    ensures r.Ok? <==> v.verify(p, p.leaf_node.signing_identity.signature_key).Ok?
    ensures r.Err? ==>
      r.error == KeyPackageValidationError.SignatureError(v.verify(p, p.leaf_node.signing_identity.signature_key).error)
  {
    match v.verify(p, p.leaf_node.signing_identity.signature_key)
    case Ok(_) => Ok(())
    case Err(e) => Err(KeyPackageValidationError.SignatureError(e))
  }

  /** The five properties of the package itself, in no particular order. */
  ghost predicate PropertiesHold(v: KeyPackageValidator, p: KeyPackage) {
    && v.verify(p, p.leaf_node.signing_identity.signature_key).Ok?
    && p.version == MaybeVersion(v.protocol_version)
    && p.cipher_suite == MaybeSuite(v.cipher_suite)
    && v.kem_public_key_validate(p.hpke_init_key)
    && p.hpke_init_key != p.leaf_node.public_key
  }

  /** `validate_properties`: succeeds exactly when all five properties hold,
      and otherwise reports the first one that fails, in the order signature,
      protocol version, cipher suite, init-key format, init key against leaf key. */
  function ValidateProperties(v: KeyPackageValidator, p: KeyPackage): (r: Result<(), KeyPackageValidationError>)
    ensures r.Ok? <==> PropertiesHold(v, p)
    ensures CheckSignature(v, p).Err? ==> r == CheckSignature(v, p)
    ensures CheckSignature(v, p).Ok? && p.version != MaybeVersion(v.protocol_version) ==>
      r == Err(InvalidProtocolVersion(p.version, v.protocol_version))
    ensures CheckSignature(v, p).Ok? && p.version == MaybeVersion(v.protocol_version)
            && p.cipher_suite != MaybeSuite(v.cipher_suite) ==>
      r == Err(InvalidCipherSuite(p.cipher_suite, v.cipher_suite))
    ensures CheckSignature(v, p).Ok? && p.version == MaybeVersion(v.protocol_version)
            && p.cipher_suite == MaybeSuite(v.cipher_suite) && !v.kem_public_key_validate(p.hpke_init_key) ==>
      r == Err(InvalidInitKey)
    ensures CheckSignature(v, p).Ok? && p.version == MaybeVersion(v.protocol_version)
            && p.cipher_suite == MaybeSuite(v.cipher_suite) && v.kem_public_key_validate(p.hpke_init_key)
            && p.hpke_init_key == p.leaf_node.public_key ==>
      r == Err(InitLeafKeyEquality)
  {
    var _ :- CheckSignature(v, p);
    if p.version != MaybeVersion(v.protocol_version) then
      Err(InvalidProtocolVersion(p.version, v.protocol_version))
    else if p.cipher_suite != MaybeSuite(v.cipher_suite) then
      Err(InvalidCipherSuite(p.cipher_suite, v.cipher_suite))
    else if !v.kem_public_key_validate(p.hpke_init_key) then
      Err(InvalidInitKey)
    else if p.hpke_init_key == p.leaf_node.public_key then
      Err(InitLeafKeyEquality)
    else
      Ok(())
  }

  /** `validation_context`. */
  function ValidationContextOf(options: KeyPackageValidationOptions): (c: ValidationContext)
    ensures c.Add? && c.lifetime_check_time == options.apply_lifetime_check
  {
    Add(options.apply_lifetime_check)
  }

  /** `check_if_valid`: the package's properties, then the leaf node in the
      adding context built from the options, then the lifetime, which only a
      leaf node created for a key package carries; on success the output is
      that lifetime's end. */
  function CheckIfValid(v: KeyPackageValidator, p: KeyPackage, options: KeyPackageValidationOptions)
    : (r: Result<KeyPackageValidationOutput, KeyPackageValidationError>)
    ensures r.Ok? <==>
      PropertiesHold(v, p)
      && v.leaf_node_check(p.leaf_node, Add(options.apply_lifetime_check)).Ok?
      && p.leaf_node.leaf_node_source.KeyPackage?
    ensures r.Ok? ==> r.value.expiration_timestamp == p.leaf_node.leaf_node_source.lifetime.not_after
    ensures ValidateProperties(v, p).Err? ==> r == Err(ValidateProperties(v, p).error)
    ensures ValidateProperties(v, p).Ok? && v.leaf_node_check(p.leaf_node, Add(options.apply_lifetime_check)).Err? ==>
      r == Err(LeafNodeValidationError(v.leaf_node_check(p.leaf_node, Add(options.apply_lifetime_check)).error))
    ensures ValidateProperties(v, p).Ok? && v.leaf_node_check(p.leaf_node, Add(options.apply_lifetime_check)).Ok?
            && !p.leaf_node.leaf_node_source.KeyPackage? ==>
      r == Err(MissingKeyLifetime)
  {
    var _ :- ValidateProperties(v, p);
    match v.leaf_node_check(p.leaf_node, ValidationContextOf(options))
    case Err(e) => Err(LeafNodeValidationError(e))
    case Ok(_) =>
      match p.leaf_node.leaf_node_source
      case KeyPackage(lifetime) => Ok(KeyPackageValidationOutput(lifetime.not_after))
      case _ => Err(MissingKeyLifetime)
  }

  // ---------------------------------------------------------------------------
  // The validation as a list of independent checks

  /** The first failure in a list of check outcomes, if any. */
  function FirstFailure<E>(checks: seq<Option<E>>): (r: Result<(), E>)
    ensures r.Ok? <==> forall i :: 0 <= i < |checks| ==> checks[i].None?
  {
    if checks == [] then Ok(())
    else if checks[0].Some? then Err(checks[0].value)
    else
      assert forall i :: 1 <= i < |checks| ==> checks[i] == checks[1..][i - 1];
      FirstFailure(checks[1..])
  }

  /** The failure reported is one of the checks, and every check before it passed. */
  lemma {:induction false} FirstFailureIsFirst<E>(checks: seq<Option<E>>)
    requires FirstFailure(checks).Err?
    ensures exists i :: 0 <= i < |checks| && checks[i] == Some(FirstFailure(checks).error)
                        && forall j :: 0 <= j < i ==> checks[j].None?
  {
    if checks[0].Some? {
      assert checks[0] == Some(FirstFailure(checks).error);
    } else {
      FirstFailureIsFirst(checks[1..]);
      var i :| 0 <= i < |checks[1..]| && checks[1..][i] == Some(FirstFailure(checks[1..]).error)
               && forall j :: 0 <= j < i ==> checks[1..][j].None?;
      assert checks[i + 1] == Some(FirstFailure(checks).error);
      assert forall j :: 0 <= j < i + 1 ==> checks[j].None? by {
        forall j | 0 <= j < i + 1 ensures checks[j].None? {
          if j > 0 {
            assert checks[j] == checks[1..][j - 1];
          }
        }
      }
    }
  }

  /** Each check evaluated on its own, without regard to the others. */
  function PackageChecks(v: KeyPackageValidator, p: KeyPackage, options: KeyPackageValidationOptions)
    : seq<Option<KeyPackageValidationError>>
  {
    var signature := v.verify(p, p.leaf_node.signing_identity.signature_key);
    var leaf := v.leaf_node_check(p.leaf_node, Add(options.apply_lifetime_check));
    [ if signature.Err? then Some(KeyPackageValidationError.SignatureError(signature.error)) else None,
      if p.version != MaybeVersion(v.protocol_version)
      then Some(InvalidProtocolVersion(p.version, v.protocol_version)) else None,
      if p.cipher_suite != MaybeSuite(v.cipher_suite)
      then Some(InvalidCipherSuite(p.cipher_suite, v.cipher_suite)) else None,
      if !v.kem_public_key_validate(p.hpke_init_key) then Some(InvalidInitKey) else None,
      if p.hpke_init_key == p.leaf_node.public_key then Some(InitLeafKeyEquality) else None,
      if leaf.Err? then Some(LeafNodeValidationError(leaf.error)) else None,
      if !p.leaf_node.leaf_node_source.KeyPackage? then Some(MissingKeyLifetime) else None ]
  }

  /** `check_if_valid` fails exactly with the first failing check of the
      seven, taken in order. */
  lemma CheckIfValidIsFirstFailure(v: KeyPackageValidator, p: KeyPackage, options: KeyPackageValidationOptions)
    ensures CheckIfValid(v, p, options).Ok? <==> FirstFailure(PackageChecks(v, p, options)).Ok?
    ensures CheckIfValid(v, p, options).Err? ==>
      CheckIfValid(v, p, options).error == FirstFailure(PackageChecks(v, p, options)).error
  {
    var c0 := PackageChecks(v, p, options);
    var c1 := c0[1..];
    var c2 := c1[1..];
    var c3 := c2[1..];
    var c4 := c3[1..];
    var c5 := c4[1..];
    var c6 := c5[1..];
    assert c6[1..] == [];
    assert FirstFailure(c6) == if c6[0].Some? then Err(c6[0].value) else Ok(());
    assert FirstFailure(c5) == if c5[0].Some? then Err(c5[0].value) else FirstFailure(c6);
    assert FirstFailure(c4) == if c4[0].Some? then Err(c4[0].value) else FirstFailure(c5);
    assert FirstFailure(c3) == if c3[0].Some? then Err(c3[0].value) else FirstFailure(c4);
    assert FirstFailure(c2) == if c2[0].Some? then Err(c2[0].value) else FirstFailure(c3);
    assert FirstFailure(c1) == if c1[0].Some? then Err(c1[0].value) else FirstFailure(c2);
    assert FirstFailure(c0) == if c0[0].Some? then Err(c0[0].value) else FirstFailure(c1);
  }
}
