/** Membership tags (src/membership_tag.rs): the to-be-MACed structure built
    from a plaintext and a group context, the tag over its serialization, and
    the recompute-and-compare check. In this snapshot the to-be-signed
    structure is built from the plaintext and the context alone; building it,
    serializing, deriving the HMAC key and computing the MAC are parameters. */
module MembershipTags {
  import opened Wrappers
  import opened Tls

  // Types defined in files that are not part of this model.
  type GroupContext
  type MLSPlaintextTBS
  type PlaintextBody
  type ConfirmationTag
  type CipherSuite
  type HashFunction
  type HmacKey
  type Tag(==)
  type HMacError
  type BincodeError
  type EpochSecrets

  /** `MessageSignature(Vec<u8>)`. */
  datatype MessageSignature = MessageSignature(bytes: Bytes)

  /** The plaintext fields this file reads; `body` stands for the others. */
  datatype MLSPlaintext = MLSPlaintext(
    body: PlaintextBody,
    signature: MessageSignature,
    confirmation_tag: Option<ConfirmationTag>)

  datatype EpochKeySchedule = EpochKeySchedule(
    membership_key: Bytes,
    cipher_suite: CipherSuite,
    secrets: EpochSecrets)

  datatype MembershipTagError = HMacError(hmac: HMacError) | SerializationError(bincode: BincodeError)

  datatype MLSPlaintextTBM = MLSPlaintextTBM(
    tbs: MLSPlaintextTBS,
    signature: MessageSignature,
    confirmation_tag: Option<ConfirmationTag>)

  /** `MembershipTag(Tag)`. */
  datatype MembershipTag = MembershipTag(tag: Tag)

  /** The operations the tag code calls but does not define. */
  datatype MacEnv = MacEnv(
    tbs_of: (MLSPlaintext, GroupContext) -> MLSPlaintextTBS,
    serialize: MLSPlaintextTBM -> Result<Bytes, BincodeError>,
    hash_function: CipherSuite -> HashFunction,
    new_key: (Bytes, HashFunction) -> Result<HmacKey, HMacError>,
    mac: (HmacKey, Bytes) -> Result<Tag, HMacError>)

  /** `MLSPlaintextTBM::from_plaintext`: the to-be-signed structure plus the
      plaintext's signature and confirmation tag, unchanged. */
  function TbmFromPlaintext(env: MacEnv, p: MLSPlaintext, group_context: GroupContext): (tbm: MLSPlaintextTBM)
    ensures tbm.tbs == env.tbs_of(p, group_context)
    ensures tbm.signature == p.signature && tbm.confirmation_tag == p.confirmation_tag
  {
    MLSPlaintextTBM(env.tbs_of(p, group_context), p.signature, p.confirmation_tag)
  }

  /** `MembershipTag::create`: serialize the structure, build the key from
      the epoch's membership key and the suite's hash, then MAC; each failure
      is reported as an error. */
  function Create(env: MacEnv, p: MLSPlaintext, group_context: GroupContext, key_schedule: EpochKeySchedule)
    : (r: Result<MembershipTag, MembershipTagError>)
    ensures var data := env.serialize(TbmFromPlaintext(env, p, group_context));
      && (data.Err? ==> r == Err(SerializationError(data.error)))
      && (data.Ok? ==>
            var key := env.new_key(key_schedule.membership_key, env.hash_function(key_schedule.cipher_suite));
            && (key.Err? ==> r == Err(HMacError(key.error)))
            && (key.Ok? ==>
                  var tag := env.mac(key.value, data.value);
                  && (tag.Err? ==> r == Err(HMacError(tag.error)))
                  && (tag.Ok? ==> r == Ok(MembershipTag(tag.value)))))
  {
    match env.serialize(TbmFromPlaintext(env, p, group_context))
    case Err(e) => Err(SerializationError(e))
    case Ok(data) =>
      match env.new_key(key_schedule.membership_key, env.hash_function(key_schedule.cipher_suite))
      case Err(e) => Err(HMacError(e))
      case Ok(key) =>
        match env.mac(key, data)
        case Err(e) => Err(HMacError(e))
        case Ok(tag) => Ok(MembershipTag(tag))
  }

  /** `MembershipTag::matches`: true exactly when the tag recomputed from the
      same inputs equals this one; a failure to recompute is an error. */
  function Matches(env: MacEnv, self_tag: MembershipTag, p: MLSPlaintext, group_context: GroupContext, key_schedule: EpochKeySchedule)
    : (r: Result<bool, MembershipTagError>)
    ensures Create(env, p, group_context, key_schedule).Err? ==> r == Err(Create(env, p, group_context, key_schedule).error)
    ensures r == Ok(true) <==> Create(env, p, group_context, key_schedule) == Ok(self_tag)
    ensures r.Ok? <==> Create(env, p, group_context, key_schedule).Ok?
  {
    match Create(env, p, group_context, key_schedule)
    case Err(e) => Err(e)
    case Ok(local) => Ok(local == self_tag)
  }

  /** A tag created for some inputs matches those inputs. */
  lemma CreatedTagMatches(env: MacEnv, p: MLSPlaintext, group_context: GroupContext, key_schedule: EpochKeySchedule)
    requires Create(env, p, group_context, key_schedule).Ok?
    ensures Matches(env, Create(env, p, group_context, key_schedule).value, p, group_context, key_schedule) == Ok(true)
  {
  }

  /** At most one tag matches given inputs. */
  lemma MatchingTagUnique(env: MacEnv, t1: MembershipTag, t2: MembershipTag, p: MLSPlaintext,
                          group_context: GroupContext, key_schedule: EpochKeySchedule)
    requires Matches(env, t1, p, group_context, key_schedule) == Ok(true)
    requires Matches(env, t2, p, group_context, key_schedule) == Ok(true)
    ensures t1 == t2
  {
  }
}
