/** Message signatures (src/group/message_signature.rs): the to-be-signed
    structure built from a plaintext, signing a plaintext in place, and
    verifying a signature under the credential the ratchet tree holds for the
    sender. This snapshot's plaintext has flat fields and a sender made of a
    sender type and a sender index. Serializing the structure, signing,
    verifying and the tree lookup are parameters. */
module MessageSignatures {
  import opened Wrappers
  import opened Tls

  // Types defined in files that are not part of this model.
  type GroupContext
  type WireFormat
  type Content
  type SenderIndex
  type OtherSenderType
  type SecretKey
  type RatchetTree
  type Credential
  type EcKeyError
  type RatchetTreeError
  type CredentialError

  /** Only the `Member` sender type matters here; the others are kept apart
      without being named. */
  datatype SenderType = Member | Other(other: OtherSenderType)

  datatype Sender = Sender(sender_type: SenderType, sender: SenderIndex)

  datatype MessageSignatureError =
    | SignatureError(ec_key: EcKeyError)
    | RatchetTreeError(tree: RatchetTreeError)
    | SerializationError(codec: CodecError)
    | CredentialError(credential: CredentialError)

  /** `MessageSignature(Vec<u8>)`. */
  datatype MessageSignature = MessageSignature(bytes: Bytes)

  /** `MessageSignature::empty()`. */
  function Empty(): (s: MessageSignature)
    ensures |s.bytes| == 0
  {
    MessageSignature([])
  }

  datatype MLSPlaintextTBS = MLSPlaintextTBS(
    context: Option<GroupContext>,
    wire_format: WireFormat,
    group_id: Bytes,
    epoch: uint64,
    sender: Sender,
    authenticated_data: Bytes,
    content: Content)

  /** The plaintext of this snapshot; `sign` overwrites its `signature`. */
  class MLSPlaintext {
    var group_id: Bytes
    var epoch: uint64
    var sender: Sender
    var authenticated_data: Bytes
    var content: Content
    var signature: MessageSignature

    constructor (group_id: Bytes, epoch: uint64, sender: Sender, authenticated_data: Bytes, content: Content)
      ensures this.group_id == group_id && this.epoch == epoch && this.sender == sender
      ensures this.authenticated_data == authenticated_data && this.content == content
      ensures signature == Empty()
    {
      this.group_id := group_id;
      this.epoch := epoch;
      this.sender := sender;
      this.authenticated_data := authenticated_data;
      this.content := content;
      signature := Empty();
    }

    /** `MLSPlaintext::sign`: the signature field is replaced by a fresh
        signature over the message's to-be-signed structure; nothing else
        changes, and on failure nothing changes at all. Since that structure
        does not include the signature, it is the same before and after. */
    method Sign(env: SignatureEnv, signer: SecretKey, group_context: GroupContext, wire_format: WireFormat)
      returns (r: Result<(), MessageSignatureError>)
      modifies this`signature
      ensures r.Ok? <==> old(Create(env, signer, this, group_context, wire_format)).Ok?
      ensures r.Ok? ==> signature == old(Create(env, signer, this, group_context, wire_format)).value
      ensures r.Err? ==>
        signature == old(signature) && r.error == old(Create(env, signer, this, group_context, wire_format)).error
      ensures FromPlaintext(this, group_context, wire_format) == old(FromPlaintext(this, group_context, wire_format))
      ensures r.Ok? ==> Create(env, signer, this, group_context, wire_format) == Ok(signature)
    {
      var created := Create(env, signer, this, group_context, wire_format);
      if created.Err? {
        return Err(created.error);
      }
      signature := created.value;
      r := Ok(());
    }
  }

  /** `MLSPlaintextTBS::from_plaintext`: the group context is included
      exactly for a `Member` sender; the other fields are copied and the
      signature is not read. */
  function FromPlaintext(p: MLSPlaintext, group_context: GroupContext, wire_format: WireFormat): (tbs: MLSPlaintextTBS)
    reads p`group_id, p`epoch, p`sender, p`authenticated_data, p`content
    ensures tbs.context.Some? <==> p.sender.sender_type.Member?
    ensures tbs.context.Some? ==> tbs.context.value == group_context
    ensures tbs.wire_format == wire_format && tbs.group_id == p.group_id && tbs.epoch == p.epoch
    ensures tbs.sender == p.sender && tbs.authenticated_data == p.authenticated_data && tbs.content == p.content
  {
    var context := match p.sender.sender_type
      case Member => Some(group_context)
      case _ => None;
    MLSPlaintextTBS(context, wire_format, p.group_id, p.epoch, p.sender, p.authenticated_data, p.content)
  }

  /** The operations the signature code calls but does not define. */
  datatype SignatureEnv = SignatureEnv(
    serialize_tbs: MLSPlaintextTBS -> Result<Bytes, CodecError>,
    sign: (SecretKey, Bytes) -> Result<Bytes, EcKeyError>,
    verify: (Credential, MessageSignature, Bytes) -> Result<bool, CredentialError>,
    credential_at: (RatchetTree, SenderIndex) -> Result<Credential, RatchetTreeError>)

  /** `MessageSignature::create`: serialize the to-be-signed structure, then sign it. */
  function Create(env: SignatureEnv, signer: SecretKey, p: MLSPlaintext, group_context: GroupContext, wire_format: WireFormat)
    : (r: Result<MessageSignature, MessageSignatureError>)
    reads p`group_id, p`epoch, p`sender, p`authenticated_data, p`content
    ensures env.serialize_tbs(FromPlaintext(p, group_context, wire_format)).Err? ==>
      r == Err(SerializationError(env.serialize_tbs(FromPlaintext(p, group_context, wire_format)).error))
    ensures env.serialize_tbs(FromPlaintext(p, group_context, wire_format)).Ok? ==>
      var signed := env.sign(signer, env.serialize_tbs(FromPlaintext(p, group_context, wire_format)).value);
      (signed.Err? ==> r == Err(SignatureError(signed.error)))
      && (signed.Ok? ==> r == Ok(MessageSignature(signed.value)))
  {
    match env.serialize_tbs(FromPlaintext(p, group_context, wire_format))
    case Err(e) => Err(SerializationError(e))
    case Ok(data) =>
      match env.sign(signer, data)
      case Err(e) => Err(SignatureError(e))
      case Ok(signature_data) => Ok(MessageSignature(signature_data))
  }

  /** `MessageSignature::is_valid`: looks up the sender's credential, then
      verifies the plaintext's own signature over the rebuilt to-be-signed
      structure. The receiver `self_signature` is not used; a failed lookup is
      an error rather than `false`, and the credential's own error is wrapped
      as `CredentialError`. */
  function IsValid(env: SignatureEnv, self_signature: MessageSignature, p: MLSPlaintext, tree: RatchetTree,
                   group_context: GroupContext, wire_format: WireFormat)
    : (r: Result<bool, MessageSignatureError>)
    reads p
    ensures env.credential_at(tree, p.sender.sender).Err? ==>
      r == Err(RatchetTreeError(env.credential_at(tree, p.sender.sender).error))
    ensures env.credential_at(tree, p.sender.sender).Ok? && env.serialize_tbs(FromPlaintext(p, group_context, wire_format)).Err? ==>
      r == Err(SerializationError(env.serialize_tbs(FromPlaintext(p, group_context, wire_format)).error))
    ensures env.credential_at(tree, p.sender.sender).Ok? && env.serialize_tbs(FromPlaintext(p, group_context, wire_format)).Ok? ==>
      var verdict := env.verify(env.credential_at(tree, p.sender.sender).value, p.signature,
                                env.serialize_tbs(FromPlaintext(p, group_context, wire_format)).value);
      (verdict.Ok? ==> r == Ok(verdict.value)) && (verdict.Err? ==> r == Err(CredentialError(verdict.error)))
  {
    match env.credential_at(tree, p.sender.sender)
    case Err(e) => Err(RatchetTreeError(e))
    case Ok(credential) =>
      match env.serialize_tbs(FromPlaintext(p, group_context, wire_format))
      case Err(e) => Err(SerializationError(e))
      case Ok(data) =>
        match env.verify(credential, p.signature, data)
        case Err(e) => Err(CredentialError(e))
        case Ok(valid) => Ok(valid)
  }

  /** `MLSPlaintext::verify_signature`: the plaintext's own signature is
      checked against the sender's credential over the rebuilt to-be-signed
      structure. */
  function VerifySignature(env: SignatureEnv, p: MLSPlaintext, tree: RatchetTree, group_context: GroupContext, wire_format: WireFormat)
    : (r: Result<bool, MessageSignatureError>)
    reads p
    ensures env.credential_at(tree, p.sender.sender).Err? ==>
      r == Err(RatchetTreeError(env.credential_at(tree, p.sender.sender).error))
    ensures env.credential_at(tree, p.sender.sender).Ok? && env.serialize_tbs(FromPlaintext(p, group_context, wire_format)).Err? ==>
      r == Err(SerializationError(env.serialize_tbs(FromPlaintext(p, group_context, wire_format)).error))
    ensures env.credential_at(tree, p.sender.sender).Ok? && env.serialize_tbs(FromPlaintext(p, group_context, wire_format)).Ok? ==>
      var verdict := env.verify(env.credential_at(tree, p.sender.sender).value, p.signature,
                                env.serialize_tbs(FromPlaintext(p, group_context, wire_format)).value);
      (verdict.Ok? ==> r == Ok(verdict.value)) && (verdict.Err? ==> r == Err(CredentialError(verdict.error)))
  {
    IsValid(env, p.signature, p, tree, group_context, wire_format)
  }

  /** What `is_valid` returns does not depend on the receiver. */
  lemma IsValidIgnoresReceiver(env: SignatureEnv, s1: MessageSignature, s2: MessageSignature, p: MLSPlaintext,
                               tree: RatchetTree, group_context: GroupContext, wire_format: WireFormat)
    ensures IsValid(env, s1, p, tree, group_context, wire_format) == IsValid(env, s2, p, tree, group_context, wire_format)
  {
  }

  /** The signature scheme accepts what the signer produced. */
  ghost predicate SchemeCorrect(env: SignatureEnv, signer: SecretKey, credential: Credential) {
    forall data: Bytes, sig: Bytes :: env.sign(signer, data) == Ok(sig) ==> env.verify(credential, MessageSignature(sig), data) == Ok(true)
  }

  /** A plaintext carrying the signature created over its current fields (as
      `Sign` leaves it) verifies under a credential that matches the signer. */
  lemma SignedPlaintextVerifies(env: SignatureEnv, signer: SecretKey, p: MLSPlaintext, tree: RatchetTree,
                                group_context: GroupContext, wire_format: WireFormat)
    requires Create(env, signer, p, group_context, wire_format) == Ok(p.signature)
    requires env.credential_at(tree, p.sender.sender).Ok?
    requires SchemeCorrect(env, signer, env.credential_at(tree, p.sender.sender).value)
    ensures VerifySignature(env, p, tree, group_context, wire_format) == Ok(true)
  {
    var data := env.serialize_tbs(FromPlaintext(p, group_context, wire_format)).value;
    assert env.sign(signer, data) == Ok(p.signature.bytes);
  }
}
