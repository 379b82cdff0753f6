# mls-rs: framing, identities, validation and session state in Dafny

This project models the self-contained pieces around the MLS group engine of
mls-rs (the Messaging Layer Security protocol, RFC 9420) and proves
properties about them. It covers:

- **Message framing** (`framing.dfy`):
  - content types and senders;
  - the public-message codec (`MLSPlaintext`), which carries a membership tag exactly for member senders;
  - the private-message content codec (`MLSCiphertextContent`), which has no type byte and all-zero padding;
  - the ciphertext AAD;
  - the `MLSMessage` accessors and wire formats.
- **Credentials, signing identities and capabilities**:
  - `credentials.dfy`: a `u16` credential type followed by the variant's body;
  - `signing_identities.dfy`: a signature key followed by a credential;
  - `capabilities.dfy`: five length-prefixed lists, and the default lists.
- **Key-package validation** (`key_package_validation.dfy`): seven checks in a fixed order. The first failure decides the error. On success the result is the key package's `not_after` time.
- **Message authentication inputs**:
  - `message_signature.dfy`: the to-be-signed structure, signing a plaintext in place, and verification;
  - `membership_tag.dfy`: the to-be-MACed structure, tag creation, and the recompute-and-compare check.
- **The session's pending-commit slot** (`session.dfy`). A session holds at most one commit of its own:
  - `commit` fills the slot, and refuses to run while it is full;
  - an incoming commit empties it;
  - `apply_pending_commit` takes the commit out, whether or not applying it succeeds;
  - `clear_pending_commit` empties it.
- **The HPKE test-vector filter** (`hpke_test_vectors.dfy`): maps an HPKE (mode, KEM, KDF, AEAD) description (sections 5 and 7.1 to 7.3 of RFC 9180) to an MLS cipher suite (section 17.1 of RFC 9420).
- **The Python bindings' in-memory group-state store** (`group_state_storage.dfy`): a dictionary keyed by the hex form of the group id. A write appends the inserted records, then overwrites records with each update in turn.

Supporting modules:

- `wrappers.dfy` provides `Option` and `Result`.
- `tls.dfy` provides the TLS presentation language:
  - big-endian unsigned integers;
  - vectors with a length prefix, as in sections 3.3 and 3.4 of RFC 8446. The prefix width is a parameter, because the vector helpers of the crate are not part of this model;
  - a `Writer` and a `Reader` class, standing for the byte cursors the codecs thread through.
- `cipher_suites.dfy` provides the cipher suites and the protocol version. Their values are the code points of section 17.1 of RFC 9420.

The model's structure:

- Each serializer is a pure function describing what it writes and what it returns. For the framing and credential codecs that includes the bytes already written when a later step fails, and each has a `Writer` method proved equal to it.
- Each deserializer is a pure function returning the value and the unread rest. The framing and credential deserializers each have a `Reader` method proved equal to it.
- The signing-identity and capabilities codecs are pure functions only (see "Left out").
- Cryptography and the codecs of structures defined elsewhere are function-valued parameters, grouped in small environment datatypes. This covers signing, verifying, HMAC, KEM-key validation, the leaf-node validator, bincode and the group engine.

The files come from different snapshots of the repository, with different shapes for the same structures. Each Dafny module follows the types of its own file.

Where the code departs from RFC 9420, the model follows the code:

- `Sender` is declared with `NewMemberCommit` before `NewMemberProposal`, so their discriminants are 3 and 4. This is the reverse of section 6 of RFC 9420.
- The to-be-signed structure includes the group context only for a `Member` sender. Section 6.1 of RFC 9420 also includes it for `new_member_commit`.
- A custom credential whose type is 0 to 2 cannot be encoded, but the decoder accepts type 0 as a custom credential.

## Model

| member | source | states |
|---|---|---|
| Framing.ContentTypeFromValue | aws-mls/src/group/framing.rs:12-16 | a content-type byte decodes exactly when it is 1, 2 or 3, to the type with that value; any other value is the error `UnknownValue` carrying that value |
| Framing.ContentTypeValueRoundTrip | aws-mls/src/group/framing.rs:12-16 | every content type decodes back from its wire value |
| Framing.SenderFromLeafIndex | aws-mls/src/group/framing.rs:41-59 | a leaf index becomes a `Member` sender with that index, whose wire discriminant is 1 |
| Framing.ContentTypeOf | aws-mls/src/group/framing.rs:18-26 | Application, Proposal and Commit map to the type of the same name, whose wire value is the content's own discriminant |
| Framing.PlaintextEmission | aws-mls/src/group/framing.rs:115-124 | the returned count equals the bytes written; success exactly when content, auth and tag all encode; the bytes are content, then auth, then the tag only if present |
| Framing.PlaintextSizeMatches | aws-mls/src/group/framing.rs:104-124 | `PlaintextSize` is content + auth + (tag or 0) and equals the bytes a successful serialization writes |
| Framing.DecodePlaintext | aws-mls/src/group/framing.rs:126-142 | a decoded plaintext carries a membership tag exactly when its sender is a member |
| Framing.PlaintextRoundTrip | aws-mls/src/group/framing.rs:115-141 | a plaintext whose tag agrees with its sender decodes back from its encoding, leaving the rest unread |
| Framing.StrayTagNotRead | aws-mls/src/group/framing.rs:115-141 | a non-member plaintext that carries a tag is written with the tag but decodes without it |
| Framing.SerializePlaintext | aws-mls/src/group/framing.rs:115-124 | the writer gains exactly the bytes the encoding writes, including a partial write before a failure, and the result is the encoding's result |
| Framing.DeserializePlaintext | aws-mls/src/group/framing.rs:126-142 | the result is the decoder's value, and on success the reader keeps the unread rest |
| Framing.ApplicationDataLaws | aws-mls/src/group/framing.rs:61-64 | application data, a byte vector, has an exact size and round-trips |
| Framing.DecodeContentBody | aws-mls/src/group/framing.rs:182-188 | the body is decoded as the variant the caller's content type names |
| Framing.ContentBodyRoundTrip | aws-mls/src/group/framing.rs:164-188 | a body written without its type byte decodes back under its own content type |
| Framing.CiphertextContentEmission | aws-mls/src/group/framing.rs:164-175 | the count equals the bytes written; success exactly when body and auth encode; the bytes are body, then auth, then the raw padding |
| Framing.CiphertextContentSizeMatches | aws-mls/src/group/framing.rs:151-175 | `CiphertextContentSize` is body + auth + padding length and equals the bytes written on success |
| Framing.DecodeCiphertextContent | aws-mls/src/group/framing.rs:177-206 | a decoded content has the caller's content type and all-zero padding |
| Framing.CiphertextContentRoundTrip | aws-mls/src/group/framing.rs:434-447 | with all-zero padding, decoding the encoding under the content's own type gives the content back |
| Framing.NonZeroPaddingRejected | aws-mls/src/group/framing.rs:192-200 | any non-zero padding byte makes decoding fail with `DecodingError("non-zero padding bytes discovered")` |
| Framing.AnyNonZero | aws-mls/src/group/framing.rs:195 | the scan finds a non-zero byte exactly when the padding is not all zero |
| Framing.SerializeCiphertextContent | aws-mls/src/group/framing.rs:164-175 | the writer gains exactly the encoding's bytes, and the result is the encoding's result |
| Framing.DeserializeCiphertextContent | aws-mls/src/group/framing.rs:177-206 | the result is the decoder's result, and on success the reader has been read to its end |
| Framing.AadOf | aws-mls/src/group/framing.rs:234-243 | the AAD copies group id, epoch, content type and authenticated data |
| Framing.AadDeterminedByHeader | aws-mls/src/group/framing.rs:209-243 | two ciphertexts have equal AADs exactly when those four header fields agree |
| Framing.IntoPlaintext | aws-mls/src/group/framing.rs:259-264 | `Some` exactly for a plaintext payload, and then that payload |
| Framing.IntoCiphertext | aws-mls/src/group/framing.rs:267-272 | `Some` exactly for a ciphertext payload, and then that payload |
| Framing.IntoWelcome | aws-mls/src/group/framing.rs:275-280 | `Some` exactly for a welcome payload, and then that payload |
| Framing.IntoGroupInfo | aws-mls/src/group/framing.rs:283-288 | `Some` exactly for a group-info payload, and then that payload |
| Framing.IntoKeyPackage | aws-mls/src/group/framing.rs:291-296 | `Some` exactly for a key-package payload, and then that payload |
| Framing.WireFormatOf | aws-mls/src/group/framing.rs:298-306 | the wire format is named after the payload variant, and its value 1..5 is the payload's discriminant |
| Framing.WireFormatValueInjective | aws-mls/src/group/framing.rs:349-355 | distinct wire formats have distinct values |
| Framing.EpochOf | aws-mls/src/group/framing.rs:308-315 | `Some` exactly for plaintext, ciphertext and group-info payloads, holding that payload's epoch |
| Framing.WireFormatFromMode | aws-mls/src/group/framing.rs:357-364 | encrypted control mode gives `Cipher` and plaintext mode gives `Plain` |
| Credentials.NewRawValueInverse | aws-mls-core/src/identity/credential.rs:26-55 | `new` and `raw_value` are mutual inverses |
| Credentials.CredentialTypeOf | aws-mls-core/src/identity/credential.rs:128-136 | Basic gives BASIC (1), X509 gives X509 (2), and Custom gives its stored type |
| Credentials.AsBasic | aws-mls-core/src/identity/credential.rs:141-146 | `Some` exactly for a basic credential, holding it |
| Credentials.AsX509 | aws-mls-core/src/identity/credential.rs:151-156 | `Some` exactly for an X.509 credential, holding it |
| Credentials.AsCustom | aws-mls-core/src/identity/credential.rs:161-166 | `Some` exactly for a custom credential, holding it |
| Credentials.CredentialEmission | aws-mls-core/src/identity/credential.rs:181-202 | the count equals the bytes written, and the type's two bytes come first; on success the bytes are the type followed by the body's own encoding (basic, chain, or the custom data as a byte vector); basic and X.509 succeed exactly when their body encodes; a custom type at most 2 fails with `EncodingError` after those two bytes are written; an allowed custom credential succeeds exactly when its data fits |
| Credentials.CredentialSizeMatches | aws-mls-core/src/identity/credential.rs:169-202 | `CredentialSize` is the type's size plus the body's size, and equals the bytes written on success |
| Credentials.DecodeCredential | aws-mls-core/src/identity/credential.rs:204-220 | fewer than two bytes is the `u16` read's error; the decoded credential's type is the `u16` read first; type 1 gives `Basic` and type 2 gives `X509`, decoded by their own codecs from the bytes after the type, and any other type gives `Custom` with its data read as a byte vector; decoding succeeds exactly when the chosen body decoder does |
| Credentials.CredentialRoundTrip | aws-mls-core/src/identity/credential.rs:181-220 | a credential that encodes decodes back, with the rest left unread, given round-tripping inner codecs |
| Credentials.DecodedTypeZeroNotReencodable | aws-mls-core/src/identity/credential.rs:189-218 | type 0 with a byte-vector body decodes to a custom credential, and that credential does not encode |
| Credentials.SerializeCredential | aws-mls-core/src/identity/credential.rs:181-202 | the writer gains exactly the encoding's bytes, and the result is the encoding's result |
| Credentials.DeserializeCredential | aws-mls-core/src/identity/credential.rs:204-220 | the result is the decoder's value, and on success the reader keeps the rest |
| SigningIdentities.New | aws-mls-core/src/identity/signing_identity.rs:27-34 | the identity holds exactly the given credential and key, which are passed in the reverse of field order |
| SigningIdentities.EqualityFieldWise | aws-mls-core/src/identity/signing_identity.rs:7-12 | two identities are equal exactly when both fields are |
| SigningIdentities.SigningIdentityEmission | aws-mls-core/src/identity/signing_identity.rs:13-25 | the count equals the bytes written; success exactly when both fields encode; the bytes are the key followed by the credential |
| SigningIdentities.SigningIdentitySizeMatches | aws-mls-core/src/identity/signing_identity.rs:13-25 | `SigningIdentitySize` is the sum of the two fields' sizes and equals the bytes written on success |
| SigningIdentities.SigningIdentityRoundTrip | aws-mls-core/src/identity/signing_identity.rs:13-25 | an identity decodes back from its encoding when both field codecs round-trip |
| SigningIdentities.DecodeSigningIdentity | aws-mls-core/src/identity/signing_identity.rs:7-25 | the key is read first and its error is the result's; decoding succeeds exactly when the key and then the credential decode; the identity holds the decoded key and the credential read from what follows it |
| TreeKemCapabilities.MaybeSuites | src/tree_kem/capabilities.rs:38 | each suite is wrapped as the maybe-suite with its code point, in order |
| TreeKemCapabilities.DefaultLists | src/tree_kem/capabilities.rs:34-43 | the default versions are `[Mls10]`; the suites are every suite in `all()` order; extensions and proposals are empty; credentials are `[1, 2]` |
| TreeKemCapabilities.Default | src/tree_kem/capabilities.rs:34-43 | the defaults are version mls10 only, no extensions or proposals, the basic and X.509 credential types, as many suites as `All()` lists, and every list fits even a one-byte length prefix |
| TreeKemCapabilities.DefaultAdvertisesEverySuite | src/tree_kem/capabilities.rs:38 | a maybe-suite is in the default list exactly when it is a known suite |
| TreeKemCapabilities.ListRoundTrip | src/tree_kem/capabilities.rs:22-31 | each list, a length-prefixed vector of `u16` values, decodes back |
| TreeKemCapabilities.EncodeCapabilities | src/tree_kem/capabilities.rs:21-32 | encoding succeeds exactly when every list fits its length prefix, producing the five lists' total size |
| TreeKemCapabilities.CapabilitiesRoundTrip | src/tree_kem/capabilities.rs:11-32 | encoded capabilities decode back, with the rest left unread |
| TreeKemCapabilities.DecodeCapabilitiesConsumesSize | src/tree_kem/capabilities.rs:11-32 | a successful decode reads exactly `CapabilitiesSize` bytes from the front of the input and returns the bytes after them unread |
| TreeKemCapabilities.DefaultEncodes | src/tree_kem/capabilities.rs:34-43 | the defaults encode to 5 prefixes plus 20 bytes and decode back |
| KeyPackageValidation.CheckSignature | aws-mls/src/key_package/validator.rs:80-89 | the package is verified under its own leaf node's signature key, and a failure maps to `SignatureError` |
| KeyPackageValidation.ValidateProperties | aws-mls/src/key_package/validator.rs:113-143 | passes exactly when all five property checks hold; each failure gives its own error, in order: signature, `InvalidProtocolVersion(found, expected)`, `InvalidCipherSuite(found, expected)`, `InvalidInitKey`, `InitLeafKeyEquality` |
| KeyPackageValidation.CheckIfValid | aws-mls/src/key_package/validator.rs:91-111 | passes exactly when the properties hold, the leaf node is valid in context `Add(apply_lifetime_check)`, and its source is a key package; the output is that lifetime's `not_after`; each failure gives its error in that order, ending with `MissingKeyLifetime` |
| KeyPackageValidation.ValidationContextOf | aws-mls/src/key_package/validator.rs:145-147 | the leaf node is checked in the adding context, with the options' lifetime-check time passed through unchanged |
| KeyPackageValidation.CheckIfValidIsFirstFailure | aws-mls/src/key_package/validator.rs:96-142 | validation fails exactly when one of the seven checks fails, with the error of the first one that fails |
| MessageSignatures.Empty | src/group/message_signature.rs:87-89 | the empty signature has no bytes |
| MessageSignatures.MLSPlaintext.constructor | src/group/message_signature.rs:40-58 | a new plaintext holds the given group id, epoch, sender, authenticated data and content, the fields `from_plaintext` copies, and starts with the empty signature |
| MessageSignatures.FromPlaintext | src/group/message_signature.rs:38-59 | the context is present exactly for a `Member` sender; the other fields are copied and the wire format is the argument's |
| MessageSignatures.MLSPlaintext.Sign | src/group/message_signature.rs:62-70 | on success only the signature field changes, to the created signature; on failure nothing changes; the to-be-signed structure is the same afterwards |
| MessageSignatures.Create | src/group/message_signature.rs:91-101 | the structure is serialized, then signed; the failures map to `SerializationError` and `SignatureError` |
| MessageSignatures.IsValid | src/group/message_signature.rs:103-125 | a failed lookup of the sender's credential is an error, not `false`; otherwise the plaintext's own signature is verified over the rebuilt structure, and an error from the credential's verifier is wrapped as `CredentialError` |
| MessageSignatures.IsValidIgnoresReceiver | src/group/message_signature.rs:103-125 | the verdict does not depend on the signature the method is called on |
| MessageSignatures.VerifySignature | src/group/message_signature.rs:72-80 | the plaintext's own signature is checked: a failed credential lookup or serialization is an error, otherwise the verdict is the credential's on that signature and the rebuilt structure, with its error wrapped as `CredentialError` |
| MessageSignatures.SignedPlaintextVerifies | src/group/message_signature.rs:62-80 | a plaintext signed by `sign` verifies, given a credential that accepts that signer's signatures |
| MembershipTags.TbmFromPlaintext | src/membership_tag.rs:27-38 | the to-be-MACed structure is the to-be-signed structure plus the plaintext's signature and confirmation tag |
| MembershipTags.Create | src/membership_tag.rs:57-74 | the serialized structure is MACed under the epoch's membership key with the suite's hash; serialization and key failures surface as errors |
| MembershipTags.Matches | src/membership_tag.rs:76-84 | true exactly when the recomputed tag equals this one; a failure to recompute is an error |
| MembershipTags.CreatedTagMatches | src/membership_tag.rs:109-111 | a created tag matches the inputs it was created from |
| MembershipTags.MatchingTagUnique | src/membership_tag.rs:76-84 | at most one tag matches given inputs |
| Sessions.SessionOpts.WireFormat | src/session.rs:39-45 | `Cipher` exactly when controls are encrypted, else `Plain` |
| Sessions.CommitRefusedWhilePending | src/session.rs:176-179 | with a commit pending, `commit` returns `ExistingPendingCommit` and changes nothing |
| Sessions.CommitSuccessStoresPacket | src/session.rs:180-197 | after a successful commit, the pending commit's packet is the returned commit packet |
| Sessions.CommitStoredIffSerialized | src/session.rs:180-192 | from an empty slot, a commit is stored exactly when the group produced it and it serialized |
| Sessions.CommitErrorWithPendingCommit | src/session.rs:187-197 | `commit` fails but leaves a pending commit exactly when the welcome fails to serialize |
| Sessions.NoSecondCommit | src/session.rs:176-192 | a second commit right after a successful one is refused |
| Sessions.IncomingCommitDiscardsPending | src/session.rs:207-218 | the slot is emptied when the incoming message is a commit, and otherwise left as it was, errors included |
| Sessions.ApplyPendingEmptiesSlot | src/session.rs:220-229 | the slot is empty afterwards even if processing fails; `PendingCommitNotFound` exactly when nothing was pending |
| Sessions.Session.constructor | src/session.rs:78-110 | a new session has an empty slot and holds the given key, group and options |
| Sessions.Session.ParticipantCount | src/session.rs:116-118 | the public tree's leaf count, or 0 when there is no tree |
| Sessions.Session.Commit | src/session.rs:176-198 | the new group, slot and result are those of the commit step |
| Sessions.Session.ProcessIncomingMessage | src/session.rs:207-218 | the new group, slot and result are those of the incoming-message step |
| Sessions.Session.ApplyPendingCommit | src/session.rs:220-229 | the new group, slot and result are those of the apply step |
| Sessions.Session.ClearPendingCommit | src/session.rs:231-233 | the slot is empty afterwards, and nothing else changes |
| Sessions.HasEqualStateOnlyGroups | src/session.rs:242-244 | two sessions have equal state exactly when their groups are equal, so the comparison is an equivalence that ignores the key, pending commit and options |
| HpkeTestVectors.FilterTestCase | aws-mls-crypto-hpke/src/test_utils.rs:19-22 | `None` whenever the mode is neither base nor PSK |
| HpkeTestVectors.FilterMatchesRegistry | aws-mls-crypto-hpke/src/test_utils.rs:19-34 | a test case maps to a suite exactly when its mode is base or PSK and its identifiers are those section 17.1 of RFC 9420 registers for that suite |
| HpkeTestVectors.SevenTriples | aws-mls-crypto-hpke/src/test_utils.rs:24-33 | exactly the seven listed triples are accepted, and every other triple gives `None` |
| HpkeTestVectors.FilterInjective | aws-mls-crypto-hpke/src/test_utils.rs:25-31 | two accepted test cases with the same suite have the same triple |
| HpkeTestVectors.EverySuiteReached | aws-mls-crypto-hpke/src/test_utils.rs:24-31 | every cipher suite is the result for its registered triple |
| HpkeTestVectors.BaseAndPskAgree | aws-mls-crypto-hpke/src/test_utils.rs:20-24 | base and PSK mode give the same result for any triple |
| GroupStateStorage.Hex | mls-rs-uniffi/tests/custom_storage_sync.py:19 | the hex key has two digits per byte |
| GroupStateStorage.HexInjective | mls-rs-uniffi/tests/custom_storage_sync.py:16-19 | distinct group ids have distinct hex keys |
| GroupStateStorage.ReplaceAll | mls-rs-uniffi/tests/custom_storage_sync.py:47-49 | one update keeps the length and replaces exactly the records with its id |
| GroupStateStorage.ApplyUpdatesLastWins | mls-rs-uniffi/tests/custom_storage_sync.py:46-49 | after all updates, length and ids are kept, and each record is the last update with its id, or unchanged if there is none |
| GroupStateStorage.WrittenRecords | mls-rs-uniffi/tests/custom_storage_sync.py:36-49 | after a write, the records are the old ones followed by the inserts, with updates applied over both; the state is the old one, or the argument for a new group |
| GroupStateStorage.PythonGroupStateStorage.constructor | mls-rs-uniffi/tests/custom_storage_sync.py:15-16 | a new store is empty |
| GroupStateStorage.PythonGroupStateStorage.State | mls-rs-uniffi/tests/custom_storage_sync.py:18-23 | the stored state, or `None` exactly for an unknown group |
| GroupStateStorage.PythonGroupStateStorage.Epoch | mls-rs-uniffi/tests/custom_storage_sync.py:25-34 | `None` for an unknown group or a missing id; otherwise the first record with the id |
| GroupStateStorage.PythonGroupStateStorage.Write | mls-rs-uniffi/tests/custom_storage_sync.py:36-49 | only this group's entry changes, and it becomes the written state and records |
| GroupStateStorage.PythonGroupStateStorage.MaxEpochId | mls-rs-uniffi/tests/custom_storage_sync.py:51-61 | `None` for an unknown group; for a known one the `list.last()` call raises `AttributeError` |
| GroupStateStorage.WriteIsolated | mls-rs-uniffi/tests/custom_storage_sync.py:39-49 | a write leaves every other group's entry as it was |

## Left out

- Cryptography, the clock and randomness are not modelled. Signing, verifying, HMAC, hashing, KEM public-key validation, the leaf-node validator and `MlsTime::now()` are parameters, with no properties assumed. Only `SignedPlaintextVerifies` assumes the signature scheme is correct, and it does so explicitly.
- The encodings of structures defined elsewhere are parameters with stated laws. This covers `MLSContent`, `MLSContentAuthData`, `MembershipTag`, `Proposal`, `Commit`, basic credentials, certificate chains, signature keys and bincode. A serializer parameter writes everything or nothing.
- The crate's `ByteVec` and `DefVec` helpers are not part of this model. They are modelled as TLS length-prefixed vectors whose prefix width is a parameter.
- Framing.SerializeCiphertextContent: the padding is written with a plain `write`, which a general writer may cut short or fail. The model's `Writer` is an in-memory buffer that takes every byte, as the `Vec` behind `tls_serialize_detached` does, so `CiphertextContentEmission` counts the whole padding.
- SigningIdentities.SigningIdentityEmission, SigningIdentities.DecodeSigningIdentity, TreeKemCapabilities.EncodeCapabilities and TreeKemCapabilities.DecodeCapabilities are pure functions with no `Writer` or `Reader` method. `EncodeCapabilities` returns the whole encoding or an error, so it does not record what a derived serializer would already have written to its writer when a later list is too long.
- Credentials.CredentialRoundTrip: the X.509 body is written and sized with `DefVec` (aws-mls-core/src/identity/credential.rs:173,187) but read with `CertificateChain`'s own decoder (credential.rs:213). The model has one `chain` codec for both, so the round trip assumes these two agree.
- Where a deserializer stops after an error is not stated. Callers discard the reader then.
- `MembershipTags.MatchingTagUnique` does not show that different inputs give different tags, which the test at src/membership_tag.rs:113-117 asserts. That needs collision resistance of the MAC.
- Hashing of `SigningIdentity` (`Hash`) is not modelled, since Dafny has no hash trait. Only field-wise equality is proved.
- `test_dhkem` is not modelled. It builds OpenSSL-backed objects, which is a foreign call.
- `KeyPackageValidator::new` is not modelled. The validator is a record of the expected version, the suite and the delegated checks.
- The leaf-node validator's behaviour, including that a `None` lifetime-check time skips the lifetime check, is not part of this model. The model only states which context the validator passes.
- These `Session` operations drive the opaque group and are not modelled: `create` and `join` (beyond the resulting state), `export_tree`, `roster`, the proposal operations, `encrypt_application_data`, `process_incoming_bytes` and `tree_stats`.
- The sender types and wire formats other than those the session and signature code name are left unnamed.
- `CipherSuite::all()` is taken to list the suites in code-point order. The cipher-suite file is not part of this model.
- `GroupStateStorage.PythonGroupStateStorage.Write` models the group's record list as a value. Python's aliasing of that list (the same object reachable from the dictionary and the local `group`) is not modelled, and neither are the integer ids beyond 64 bits.
- The gRPC test harness, the X.509 identity provider, the end-to-end tests and `src/lib.rs` are not part of this model. They are I/O, concurrency, delegation to unshown traits, or test scaffolding.
