/** Message framing (aws-mls/src/group/framing.rs): content types, senders, the
    public-message codec (`MLSPlaintext`), the private-message content codec
    (`MLSCiphertextContent`, no type byte, all-zero padding), the ciphertext AAD
    and the accessors of `MLSMessage`. This is the framing of section 6 of
    RFC 9420 under its draft-era names. The codecs of the structures this file
    only embeds (`MLSContent`, `MLSContentAuthData`, `MembershipTag`,
    `Proposal`, `Commit`) are parameters. */
module Framing {
  import opened Wrappers
  import opened Tls
  import opened CipherSuites

  // Types defined in files that are not part of this model.
  type Proposal
  type Commit
  type MembershipTag
  type ConfirmationTag
  type Welcome
  type KeyPackage
  type GroupInfoBody
  type GroupContextExtensions
  type PaddingMode

  /** `ContentType`, a `u8` on the wire. */
  datatype ContentType = Application | Proposal | Commit {
    function Value(): uint8 {
      match this
      case Application => 1
      case Proposal => 2
      case Commit => 3
    }
  }

  /** The derived decoder of `ContentType`: only 1, 2 and 3 name a type; any
      other value is reported as `UnknownValue`. */
  function ContentTypeFromValue(v: uint8): (r: Result<ContentType, CodecError>)
    ensures r.Ok? <==> 1 <= v <= 3
    ensures r.Ok? ==> r.value.Value() == v
    ensures r.Err? ==> r.error == UnknownValue(v as nat)
  {
    if v == 1 then Ok(ContentType.Application)
    else if v == 2 then Ok(ContentType.Proposal)
    else if v == 3 then Ok(ContentType.Commit)
    else Err(UnknownValue(v as nat))
  }

  lemma ContentTypeValueRoundTrip(t: ContentType)
    ensures ContentTypeFromValue(t.Value()) == Ok(t)
  {
  }

  /** `Sender`, in declaration order: its derived `u8` discriminants start at 1,
      so `NewMemberCommit` is 3 and `NewMemberProposal` is 4. */
  datatype Sender =
    | Member(leaf_index: uint32)
    | External(external_index: uint32)
    | NewMemberCommit
    | NewMemberProposal
  {
    function Discriminant(): uint8 {
      match this
      case Member(_) => 1
      case External(_) => 2
      case NewMemberCommit => 3
      case NewMemberProposal => 4
    }
  }

  /** `From<u32>` and `From<LeafIndex>` for `Sender`. */
  function SenderFromLeafIndex(leaf_index: uint32): (s: Sender)
    ensures s.Member? && s.leaf_index == leaf_index
    ensures s.Discriminant() == 1
  {
    Member(leaf_index)
  }

  datatype ApplicationData = ApplicationData(data: Bytes)

  /** `Content`; its derived `u8` discriminants also start at 1. */
  datatype Content =
    | Application(application: ApplicationData)
    | Proposal(proposal: Proposal)
    | Commit(commit: Commit)
  {
    function Discriminant(): uint8 {
      match this
      case Application(_) => 1
      case Proposal(_) => 2
      case Commit(_) => 3
    }
  }

  /** `ContentType::from(&Content)` and `Content::content_type`: the variant's
      own name, whose wire value is the content's own discriminant. */
  function ContentTypeOf(c: Content): (t: ContentType)
    ensures t.Value() == c.Discriminant()
    ensures t == ContentType.Application <==> c.Application?
    ensures t == ContentType.Proposal <==> c.Proposal?
    ensures t == ContentType.Commit <==> c.Commit?
  {
    match c
    case Application(_) => ContentType.Application
    case Proposal(_) => ContentType.Proposal
    case Commit(_) => ContentType.Commit
  }

  datatype MLSContent = MLSContent(
    group_id: Bytes,
    epoch: uint64,
    sender: Sender,
    authenticated_data: Bytes,
    content: Content)

  datatype MLSContentAuthData = MLSContentAuthData(
    signature: Bytes,
    confirmation_tag: Option<ConfirmationTag>)

  datatype MLSPlaintext = MLSPlaintext(
    content: MLSContent,
    auth: MLSContentAuthData,
    membership_tag: Option<MembershipTag>)

  /** A plaintext as section 6.2 of RFC 9420 shapes it: a membership tag
      exactly when the sender is a member. */
  ghost predicate TagMatchesSender(p: MLSPlaintext) {
    p.membership_tag.Some? <==> p.content.sender.Member?
  }

  /** The codec of `MLSContentAuthData`, whose decoder is told the content type. */
  datatype AuthCodec = AuthCodec(
    size: MLSContentAuthData -> nat,
    encode: MLSContentAuthData -> Result<Bytes, CodecError>,
    decode: (ContentType, Bytes) -> Result<(MLSContentAuthData, Bytes), CodecError>)

  function AuthFor(a: AuthCodec, t: ContentType): Codec<MLSContentAuthData> {
    Codec(a.size, a.encode, bs => a.decode(t, bs))
  }

  ghost predicate AuthSizeExactAt(a: AuthCodec, x: MLSContentAuthData) {
    a.encode(x).Ok? ==> |a.encode(x).value| == a.size(x)
  }

  datatype PlaintextCodecs = PlaintextCodecs(
    content: Codec<MLSContent>,
    auth: AuthCodec,
    tag: Codec<MembershipTag>)

  // ---------------------------------------------------------------------------
  // MLSPlaintext

  /** `Size for MLSPlaintext`. */
  function PlaintextSize(cs: PlaintextCodecs, p: MLSPlaintext): nat {
    cs.content.size(p.content) + cs.auth.size(p.auth)
    + (match p.membership_tag case Some(t) => cs.tag.size(t) case None => 0)
  }

  function TagEmission(cs: PlaintextCodecs, tag: Option<MembershipTag>): Emission {
    match tag
    case Some(t) => Emit(cs.tag.encode(t))
    case None => Emission([], Ok(0))
  }

  /** `Serialize for MLSPlaintext`: content, then auth, then the membership
      tag only when there is one; the first failure stops the writing. */
  function PlaintextEmission(cs: PlaintextCodecs, p: MLSPlaintext): (e: Emission)
    ensures Counted(e)
    ensures e.result.Ok? <==>
      cs.content.encode(p.content).Ok? && cs.auth.encode(p.auth).Ok?
      && (p.membership_tag.Some? ==> cs.tag.encode(p.membership_tag.value).Ok?)
    ensures e.result.Ok? ==>
      e.written == cs.content.encode(p.content).value + cs.auth.encode(p.auth).value
                   + (if p.membership_tag.Some? then cs.tag.encode(p.membership_tag.value).value else [])
  {
    Then(Then(Emit(cs.content.encode(p.content)), Emit(cs.auth.encode(p.auth))),
         TagEmission(cs, p.membership_tag))
  }

  /** The announced size is the number of bytes written and returned. */
  lemma PlaintextSizeMatches(cs: PlaintextCodecs, p: MLSPlaintext)
    requires SizeExactAt(cs.content, p.content)
    requires AuthSizeExactAt(cs.auth, p.auth)
    requires p.membership_tag.Some? ==> SizeExactAt(cs.tag, p.membership_tag.value)
    ensures PlaintextEmission(cs, p).result.Ok? ==>
      PlaintextEmission(cs, p).result == Ok(PlaintextSize(cs, p))
      && |PlaintextEmission(cs, p).written| == PlaintextSize(cs, p)
  {
  }

  /** `Deserialize for MLSPlaintext`: the membership tag is read exactly when
      the decoded content names a member as its sender. */
  function DecodePlaintext(cs: PlaintextCodecs, bs: Bytes): (r: Result<(MLSPlaintext, Bytes), CodecError>)
    ensures r.Ok? ==> TagMatchesSender(r.value.0)
  {
    match cs.content.decode(bs)
    case Err(e) => Err(e)
    case Ok((content, afterContent)) =>
      match cs.auth.decode(ContentTypeOf(content.content), afterContent)
      case Err(e) => Err(e)
      case Ok((auth, afterAuth)) =>
        if content.sender.Member? then
          match cs.tag.decode(afterAuth)
          case Err(e) => Err(e)
          case Ok((tag, afterTag)) => Ok((MLSPlaintext(content, auth, Some(tag)), afterTag))
        else
          Ok((MLSPlaintext(content, auth, None), afterAuth))
  }

  /** A well-shaped plaintext survives encoding and decoding, whatever follows it. */
  lemma {:induction false} PlaintextRoundTrip(cs: PlaintextCodecs, p: MLSPlaintext, rest: Bytes)
    requires TagMatchesSender(p)
    requires RoundTripsAt(cs.content, p.content)
    requires RoundTripsAt(AuthFor(cs.auth, ContentTypeOf(p.content.content)), p.auth)
    requires p.membership_tag.Some? ==> RoundTripsAt(cs.tag, p.membership_tag.value)
    requires PlaintextEmission(cs, p).result.Ok?
    ensures DecodePlaintext(cs, PlaintextEmission(cs, p).written + rest) == Ok((p, rest))
  {
    var c := cs.content.encode(p.content).value;
    var a := cs.auth.encode(p.auth).value;
    var t := if p.membership_tag.Some? then cs.tag.encode(p.membership_tag.value).value else [];
    assert PlaintextEmission(cs, p).written + rest == c + (a + (t + rest));
    assert cs.content.decode(c + (a + (t + rest))) == Ok((p.content, a + (t + rest)));
    assert AuthFor(cs.auth, ContentTypeOf(p.content.content)).decode(a + (t + rest)) == Ok((p.auth, t + rest));
    if p.membership_tag.Some? {
      assert cs.tag.decode(t + rest) == Ok((p.membership_tag.value, rest));
    } else {
      assert t + rest == rest;
    }
  }

  /** A non-member plaintext that nonetheless carries a tag is written with
      its tag but read back without it: the tag bytes are left unread. */
  lemma {:induction false} StrayTagNotRead(cs: PlaintextCodecs, p: MLSPlaintext)
    requires !p.content.sender.Member? && p.membership_tag.Some?
    requires RoundTripsAt(cs.content, p.content)
    requires RoundTripsAt(AuthFor(cs.auth, ContentTypeOf(p.content.content)), p.auth)
    requires PlaintextEmission(cs, p).result.Ok?
    ensures DecodePlaintext(cs, PlaintextEmission(cs, p).written)
      == Ok((p.(membership_tag := None), cs.tag.encode(p.membership_tag.value).value))
  {
    var c := cs.content.encode(p.content).value;
    var a := cs.auth.encode(p.auth).value;
    var t := cs.tag.encode(p.membership_tag.value).value;
    assert PlaintextEmission(cs, p).written == c + (a + t);
    assert cs.content.decode(c + (a + t)) == Ok((p.content, a + t));
    assert AuthFor(cs.auth, ContentTypeOf(p.content.content)).decode(a + t) == Ok((p.auth, t));
  }

  /** `MLSPlaintext::tls_serialize`, threading the writer. */
  method SerializePlaintext(cs: PlaintextCodecs, p: MLSPlaintext, w: Writer) returns (r: Result<nat, CodecError>)
    modifies w
    ensures w.written == old(w.written) + PlaintextEmission(cs, p).written
    ensures r == PlaintextEmission(cs, p).result
  {
    var contentLen := w.Write(cs.content.encode(p.content));
    if contentLen.Err? {
      return Err(contentLen.error);
    }
    var authLen := w.Write(cs.auth.encode(p.auth));
    if authLen.Err? {
      return Err(authLen.error);
    }
    var tagLen: Result<nat, CodecError> := Ok(0);
    if p.membership_tag.Some? {
      tagLen := w.Write(cs.tag.encode(p.membership_tag.value));
    }
    if tagLen.Err? {
      return Err(tagLen.error);
    }
    r := Ok(contentLen.value + authLen.value + tagLen.value);
  }

  /** `MLSPlaintext::tls_deserialize`, threading the reader. */
  method DeserializePlaintext(cs: PlaintextCodecs, rd: Reader) returns (r: Result<MLSPlaintext, CodecError>)
    modifies rd
    ensures DecodePlaintext(cs, old(rd.remaining)).Ok? ==>
      r == Ok(DecodePlaintext(cs, old(rd.remaining)).value.0)
      && rd.remaining == DecodePlaintext(cs, old(rd.remaining)).value.1
    ensures DecodePlaintext(cs, old(rd.remaining)).Err? ==>
      r == Err(DecodePlaintext(cs, old(rd.remaining)).error)
  {
    var content := rd.Read(cs.content.decode);
    if content.Err? {
      return Err(content.error);
    }
    var contentType := ContentTypeOf(content.value.content);
    var auth := rd.Read(bs => cs.auth.decode(contentType, bs));
    if auth.Err? {
      return Err(auth.error);
    }
    var tag: Option<MembershipTag> := None;
    if content.value.sender.Member? {
      var t := rd.Read(cs.tag.decode);
      if t.Err? {
        return Err(t.error);
      }
      tag := Some(t.value);
    }
    r := Ok(MLSPlaintext(content.value, auth.value, tag));
  }

  // ---------------------------------------------------------------------------
  // MLSCiphertextContent

  datatype MLSCiphertextContent = MLSCiphertextContent(
    content: Content,
    auth: MLSContentAuthData,
    padding: Bytes)

  /** The codecs of a private message's content; application data is a
      `ByteVec` with a `width`-byte length prefix. */
  datatype CiphertextCodecs = CiphertextCodecs(
    width: nat,
    proposal: Codec<Proposal>,
    commit: Codec<Commit>,
    auth: AuthCodec)

  function ApplicationDataCodec(w: nat): Codec<ApplicationData> {
    Codec(
      (a: ApplicationData) => w + |a.data|,
      (a: ApplicationData) => EncodeVec(w, a.data),
      bs => match ReadVec(w, bs)
            case Ok((d, rest)) => Ok((ApplicationData(d), rest))
            case Err(e) => Err(e))
  }

  lemma ApplicationDataLaws(w: nat, a: ApplicationData)
    ensures SizeExactAt(ApplicationDataCodec(w), a)
    ensures RoundTripsAt(ApplicationDataCodec(w), a)
  {
    if |a.data| < Pow256(w) {
      forall rest: Bytes
        ensures ApplicationDataCodec(w).decode(EncodeVec(w, a.data).value + rest) == Ok((a, rest))
      {
        VecRoundTrip(w, a.data, rest);
      }
    }
  }

  /** The content's variant body, encoded without any type byte. */
  function ContentBodyEncoding(cs: CiphertextCodecs, c: Content): Result<Bytes, CodecError> {
    match c
    case Application(a) => ApplicationDataCodec(cs.width).encode(a)
    case Proposal(p) => cs.proposal.encode(p)
    case Commit(m) => cs.commit.encode(m)
  }

  function ContentBodySize(cs: CiphertextCodecs, c: Content): nat {
    match c
    case Application(a) => ApplicationDataCodec(cs.width).size(a)
    case Proposal(p) => cs.proposal.size(p)
    case Commit(m) => cs.commit.size(m)
  }

  /** The variant body is read with the decoder the caller's content type names. */
  function DecodeContentBody(cs: CiphertextCodecs, t: ContentType, bs: Bytes): (r: Result<(Content, Bytes), CodecError>)
    ensures r.Ok? ==> ContentTypeOf(r.value.0) == t
  {
    match t
    case Application =>
      (match ApplicationDataCodec(cs.width).decode(bs)
       case Ok((a, rest)) => Ok((Content.Application(a), rest))
       case Err(e) => Err(e))
    case Proposal =>
      (match cs.proposal.decode(bs)
       case Ok((p, rest)) => Ok((Content.Proposal(p), rest))
       case Err(e) => Err(e))
    case Commit =>
      (match cs.commit.decode(bs)
       case Ok((m, rest)) => Ok((Content.Commit(m), rest))
       case Err(e) => Err(e))
  }

  /** The inner codec of the content's variant round-trips (application data
      always does, see `ApplicationDataLaws`). */
  ghost predicate BodyRoundTripsAt(cs: CiphertextCodecs, c: Content) {
    match c
    case Application(_) => true
    case Proposal(p) => RoundTripsAt(cs.proposal, p)
    case Commit(m) => RoundTripsAt(cs.commit, m)
  }

  ghost predicate BodySizeExactAt(cs: CiphertextCodecs, c: Content) {
    match c
    case Application(_) => true
    case Proposal(p) => SizeExactAt(cs.proposal, p)
    case Commit(m) => SizeExactAt(cs.commit, m)
  }

  lemma {:induction false} ContentBodyRoundTrip(cs: CiphertextCodecs, c: Content, rest: Bytes)
    requires BodyRoundTripsAt(cs, c)
    requires ContentBodyEncoding(cs, c).Ok?
    ensures DecodeContentBody(cs, ContentTypeOf(c), ContentBodyEncoding(cs, c).value + rest) == Ok((c, rest))
  {
    match c
    case Application(a) =>
      ApplicationDataLaws(cs.width, a);
      assert ApplicationDataCodec(cs.width).decode(ContentBodyEncoding(cs, c).value + rest) == Ok((a, rest));
    case Proposal(p) =>
      assert cs.proposal.decode(ContentBodyEncoding(cs, c).value + rest) == Ok((p, rest));
    case Commit(m) =>
      assert cs.commit.decode(ContentBodyEncoding(cs, c).value + rest) == Ok((m, rest));
  }

  const NonZeroPaddingMessage: string := "non-zero padding bytes discovered"

  predicate AllZero(bs: Bytes) {
    forall i | 0 <= i < |bs| :: bs[i] == 0
  }

  /** `Size for MLSCiphertextContent`: body, auth and padding. */
  function CiphertextContentSize(cs: CiphertextCodecs, c: MLSCiphertextContent): nat {
    ContentBodySize(cs, c.content) + cs.auth.size(c.auth) + |c.padding|
  }

  /** `Serialize for MLSCiphertextContent`: the variant body with no type
      byte, then auth, then the padding bytes as they are. */
  function CiphertextContentEmission(cs: CiphertextCodecs, c: MLSCiphertextContent): (e: Emission)
    ensures Counted(e)
    ensures e.result.Ok? <==> ContentBodyEncoding(cs, c.content).Ok? && cs.auth.encode(c.auth).Ok?
    ensures e.result.Ok? ==>
      e.written == ContentBodyEncoding(cs, c.content).value + cs.auth.encode(c.auth).value + c.padding
  {
    Then(Then(Emit(ContentBodyEncoding(cs, c.content)), Emit(cs.auth.encode(c.auth))),
         Emission(c.padding, Ok(|c.padding|)))
  }

  lemma CiphertextContentSizeMatches(cs: CiphertextCodecs, c: MLSCiphertextContent)
    requires BodySizeExactAt(cs, c.content)
    requires AuthSizeExactAt(cs.auth, c.auth)
    ensures CiphertextContentEmission(cs, c).result.Ok? ==>
      CiphertextContentEmission(cs, c).result == Ok(CiphertextContentSize(cs, c))
      && |CiphertextContentEmission(cs, c).written| == CiphertextContentSize(cs, c)
  {
    if c.content.Application? {
      ApplicationDataLaws(cs.width, c.content.application);
    }
  }

  /** `MLSCiphertextContent::tls_deserialize`: the variant comes from the
      caller's content type, the padding is all the remaining input, and a
      non-zero padding byte is a decoding error. */
  function DecodeCiphertextContent(cs: CiphertextCodecs, t: ContentType, bs: Bytes): (r: Result<MLSCiphertextContent, CodecError>)
    ensures r.Ok? ==> ContentTypeOf(r.value.content) == t && AllZero(r.value.padding)
  {
    match DecodeContentBody(cs, t, bs)
    case Err(e) => Err(e)
    case Ok((content, afterBody)) =>
      match cs.auth.decode(ContentTypeOf(content), afterBody)
      case Err(e) => Err(e)
      case Ok((auth, padding)) =>
        if !AllZero(padding) then Err(DecodingError(NonZeroPaddingMessage))
        else Ok(MLSCiphertextContent(content, auth, padding))
  }

  /** With all-zero padding, decoding under the content's own type undoes encoding. */
  lemma {:induction false} CiphertextContentRoundTrip(cs: CiphertextCodecs, c: MLSCiphertextContent)
    requires BodyRoundTripsAt(cs, c.content)
    requires RoundTripsAt(AuthFor(cs.auth, ContentTypeOf(c.content)), c.auth)
    requires CiphertextContentEmission(cs, c).result.Ok?
    requires AllZero(c.padding)
    ensures DecodeCiphertextContent(cs, ContentTypeOf(c.content), CiphertextContentEmission(cs, c).written) == Ok(c)
  {
    DecodedBodyAndAuth(cs, c);
  }

  /** Any non-zero padding byte makes the same encoding fail to decode. */
  lemma {:induction false} NonZeroPaddingRejected(cs: CiphertextCodecs, c: MLSCiphertextContent)
    requires BodyRoundTripsAt(cs, c.content)
    requires RoundTripsAt(AuthFor(cs.auth, ContentTypeOf(c.content)), c.auth)
    requires CiphertextContentEmission(cs, c).result.Ok?
    requires !AllZero(c.padding)
    ensures DecodeCiphertextContent(cs, ContentTypeOf(c.content), CiphertextContentEmission(cs, c).written)
      == Err(DecodingError(NonZeroPaddingMessage))
  {
    DecodedBodyAndAuth(cs, c);
  }

  lemma {:induction false} DecodedBodyAndAuth(cs: CiphertextCodecs, c: MLSCiphertextContent)
    requires BodyRoundTripsAt(cs, c.content)
    requires RoundTripsAt(AuthFor(cs.auth, ContentTypeOf(c.content)), c.auth)
    requires CiphertextContentEmission(cs, c).result.Ok?
    ensures DecodeContentBody(cs, ContentTypeOf(c.content), CiphertextContentEmission(cs, c).written)
      == Ok((c.content, cs.auth.encode(c.auth).value + c.padding))
    ensures cs.auth.decode(ContentTypeOf(c.content), cs.auth.encode(c.auth).value + c.padding)
      == Ok((c.auth, c.padding))
  {
    var b := ContentBodyEncoding(cs, c.content).value;
    var a := cs.auth.encode(c.auth).value;
    assert CiphertextContentEmission(cs, c).written == b + (a + c.padding);
    ContentBodyRoundTrip(cs, c.content, a + c.padding);
    assert AuthFor(cs.auth, ContentTypeOf(c.content)).decode(a + c.padding) == Ok((c.auth, c.padding));
  }

  /** `padding.iter().any(|&i| i != 0u8)`. */
  method AnyNonZero(padding: Bytes) returns (found: bool)
    ensures found <==> !AllZero(padding)
  {
    var i := 0;
    while i < |padding|
      invariant 0 <= i <= |padding|
      invariant forall j | 0 <= j < i :: padding[j] == 0
    {
      if padding[i] != 0 {
        return true;
      }
      i := i + 1;
    }
    return false;
  }

  /** `MLSCiphertextContent::tls_serialize`, threading the writer. */
  method SerializeCiphertextContent(cs: CiphertextCodecs, c: MLSCiphertextContent, w: Writer)
    returns (r: Result<nat, CodecError>)
    modifies w
    ensures w.written == old(w.written) + CiphertextContentEmission(cs, c).written
    ensures r == CiphertextContentEmission(cs, c).result
  {
    var bodyLen := w.Write(ContentBodyEncoding(cs, c.content));
    if bodyLen.Err? {
      return Err(bodyLen.error);
    }
    var authLen := w.Write(cs.auth.encode(c.auth));
    if authLen.Err? {
      return Err(authLen.error);
    }
    var paddingLen := w.WriteRaw(c.padding);
    r := Ok(bodyLen.value + authLen.value + paddingLen);
  }

  /** `MLSCiphertextContent::tls_deserialize`, threading the reader to its end. */
  method DeserializeCiphertextContent(cs: CiphertextCodecs, t: ContentType, rd: Reader)
    returns (r: Result<MLSCiphertextContent, CodecError>)
    modifies rd
    ensures r == DecodeCiphertextContent(cs, t, old(rd.remaining))
    ensures r.Ok? ==> rd.remaining == []
  {
    var content := rd.Read(bs => DecodeContentBody(cs, t, bs));
    if content.Err? {
      return Err(content.error);
    }
    var contentType := ContentTypeOf(content.value);
    var auth := rd.Read(bs => cs.auth.decode(contentType, bs));
    if auth.Err? {
      return Err(auth.error);
    }
    var padding := rd.ReadToEnd();
    var nonZero := AnyNonZero(padding);
    if nonZero {
      return Err(DecodingError(NonZeroPaddingMessage));
    }
    r := Ok(MLSCiphertextContent(content.value, auth.value, padding));
  }

  // ---------------------------------------------------------------------------
  // MLSCiphertext and its AAD

  datatype MLSCiphertext = MLSCiphertext(
    group_id: Bytes,
    epoch: uint64,
    content_type: ContentType,
    authenticated_data: Bytes,
    encrypted_sender_data: Bytes,
    ciphertext: Bytes)

  datatype MLSCiphertextContentAAD = MLSCiphertextContentAAD(
    group_id: Bytes,
    epoch: uint64,
    content_type: ContentType,
    authenticated_data: Bytes)

  /** `From<&MLSCiphertext> for MLSCiphertextContentAAD`: the header fields,
      without the encrypted sender data and the ciphertext. */
  function AadOf(c: MLSCiphertext): (aad: MLSCiphertextContentAAD)
    ensures aad.group_id == c.group_id && aad.epoch == c.epoch
    ensures aad.content_type == c.content_type && aad.authenticated_data == c.authenticated_data
  {
    MLSCiphertextContentAAD(c.group_id, c.epoch, c.content_type, c.authenticated_data)
  }

  /** Two ciphertexts have the same AAD exactly when their four header fields
      agree; the encrypted parts do not enter it. */
  lemma AadDeterminedByHeader(c1: MLSCiphertext, c2: MLSCiphertext)
    ensures AadOf(c1) == AadOf(c2) <==>
      c1.group_id == c2.group_id && c1.epoch == c2.epoch
      && c1.content_type == c2.content_type && c1.authenticated_data == c2.authenticated_data
  {
  }

  // ---------------------------------------------------------------------------
  // MLSMessage

  datatype GroupContext = GroupContext(
    group_id: Bytes,
    epoch: uint64,
    tree_hash: Bytes,
    confirmed_transcript_hash: Bytes,
    extensions: GroupContextExtensions)

  datatype GroupInfo = GroupInfo(group_context: GroupContext, body: GroupInfoBody)

  /** `MLSMessagePayload`, a `u16`-tagged union whose discriminants start at 1. */
  datatype MLSMessagePayload =
    | Plain(plaintext: MLSPlaintext)
    | Cipher(ciphertext: MLSCiphertext)
    | Welcome(welcome: Welcome)
    | GroupInfo(group_info: GroupInfo)
    | KeyPackage(key_package: KeyPackage)
  {
    function Discriminant(): uint16 {
      match this
      case Plain(_) => 1
      case Cipher(_) => 2
      case Welcome(_) => 3
      case GroupInfo(_) => 4
      case KeyPackage(_) => 5
    }
  }

  datatype MLSMessage = MLSMessage(version: ProtocolVersion, payload: MLSMessagePayload)

  datatype WireFormat = Plain | Cipher | Welcome | GroupInfo | KeyPackage {
    function Value(): uint16 {
      match this
      case Plain => 1
      case Cipher => 2
      case Welcome => 3
      case GroupInfo => 4
      case KeyPackage => 5
    }
  }

  function IntoPlaintext(m: MLSMessage): (r: Option<MLSPlaintext>)
    ensures r.Some? <==> m.payload.Plain?
    ensures r.Some? ==> m.payload == MLSMessagePayload.Plain(r.value)
  {
    match m.payload
    case Plain(p) => Some(p)
    case _ => None
  }

  function IntoCiphertext(m: MLSMessage): (r: Option<MLSCiphertext>)
    ensures r.Some? <==> m.payload.Cipher?
    ensures r.Some? ==> m.payload == MLSMessagePayload.Cipher(r.value)
  {
    match m.payload
    case Cipher(c) => Some(c)
    case _ => None
  }

  function IntoWelcome(m: MLSMessage): (r: Option<Welcome>)
    ensures r.Some? <==> m.payload.Welcome?
    ensures r.Some? ==> m.payload == MLSMessagePayload.Welcome(r.value)
  {
    match m.payload
    case Welcome(w) => Some(w)
    case _ => None
  }

  function IntoGroupInfo(m: MLSMessage): (r: Option<GroupInfo>)
    ensures r.Some? <==> m.payload.GroupInfo?
    ensures r.Some? ==> m.payload == MLSMessagePayload.GroupInfo(r.value)
  {
    match m.payload
    case GroupInfo(gi) => Some(gi)
    case _ => None
  }

  function IntoKeyPackage(m: MLSMessage): (r: Option<KeyPackage>)
    ensures r.Some? <==> m.payload.KeyPackage?
    ensures r.Some? ==> m.payload == MLSMessagePayload.KeyPackage(r.value)
  {
    match m.payload
    case KeyPackage(kp) => Some(kp)
    case _ => None
  }

  /** `MLSMessage::wire_format`: the wire format named after the payload,
      whose code point is the payload's own discriminant. */
  function WireFormatOf(m: MLSMessage): (f: WireFormat)
    ensures f.Value() == m.payload.Discriminant()
    ensures f == WireFormat.Plain <==> m.payload.Plain?
    ensures f == WireFormat.Cipher <==> m.payload.Cipher?
  {
    match m.payload
    case Plain(_) => WireFormat.Plain
    case Cipher(_) => WireFormat.Cipher
    case Welcome(_) => WireFormat.Welcome
    case GroupInfo(_) => WireFormat.GroupInfo
    case KeyPackage(_) => WireFormat.KeyPackage
  }

  lemma WireFormatValueInjective(a: WireFormat, b: WireFormat)
    ensures a.Value() == b.Value() ==> a == b
  {
  }

  /** `MLSMessage::epoch`: only public messages, private messages and group
      infos say which epoch they belong to. */
  function EpochOf(m: MLSMessage): (r: Option<uint64>)
    ensures r.Some? <==> m.payload.Plain? || m.payload.Cipher? || m.payload.GroupInfo?
    ensures m.payload.Plain? ==> r == Some(m.payload.plaintext.content.epoch)
    ensures m.payload.Cipher? ==> r == Some(m.payload.ciphertext.epoch)
    ensures m.payload.GroupInfo? ==> r == Some(m.payload.group_info.group_context.epoch)
  {
    match m.payload
    case Plain(p) => Some(p.content.epoch)
    case Cipher(c) => Some(c.epoch)
    case GroupInfo(gi) => Some(gi.group_context.epoch)
    case _ => None
  }

  datatype ControlEncryptionMode = Plaintext | Encrypted(padding: PaddingMode)

  /** `From<ControlEncryptionMode> for WireFormat`. */
  function WireFormatFromMode(mode: ControlEncryptionMode): (f: WireFormat)
    ensures f == WireFormat.Cipher <==> mode.Encrypted?
    ensures f == WireFormat.Plain <==> mode.Plaintext?
  {
    match mode
    case Plaintext => WireFormat.Plain
    case Encrypted(_) => WireFormat.Cipher
  }
}
