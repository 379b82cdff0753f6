/** Credentials (aws-mls-core/src/identity/credential.rs): the 16-bit
    credential type with its two defined values, the `Credential` enum and its
    hand-written codec. The codecs of `BasicCredential` and of the X.509
    `CertificateChain` (a `DefVec`) are parameters. */
module Credentials {
  import opened Wrappers
  import opened Tls

  // Types defined in files that are not part of this model.
  type BasicCredential
  type CertificateChain

  /** `CredentialType(u16)`, any 16-bit value. */
  datatype CredentialType = CredentialType(raw: uint16)

  const BASIC: CredentialType := CredentialType(1)
  const X509: CredentialType := CredentialType(2)

  /** `CredentialType::new` and `From<u16>`. */
  function New(raw_value: uint16): CredentialType {
    CredentialType(raw_value)
  }

  /** `CredentialType::raw_value` and `Deref`. */
  function RawValue(t: CredentialType): uint16 {
    t.raw
  }

  /** `new` and `raw_value` are inverse, so two credential types are equal
      exactly when their raw values are. */
  lemma NewRawValueInverse(raw_value: uint16, t: CredentialType)
    ensures RawValue(New(raw_value)) == raw_value
    ensures New(RawValue(t)) == t
    ensures New(raw_value) == t <==> RawValue(t) == raw_value
  {
  }

  datatype CustomCredential = CustomCredential(credential_type: CredentialType, data: Bytes)

  datatype Credential =
    | Basic(basic: BasicCredential)
    | X509(chain: CertificateChain)
    | Custom(custom: CustomCredential)

  /** `Credential::credential_type`. */
  function CredentialTypeOf(c: Credential): (t: CredentialType)
    ensures c.Basic? ==> t == BASIC
    ensures c.X509? ==> t == X509
    ensures c.Custom? ==> t == c.custom.credential_type
  {
    match c
    case Basic(_) => BASIC
    case X509(_) => X509
    case Custom(custom) => custom.credential_type
  }

  function AsBasic(c: Credential): (r: Option<BasicCredential>)
    ensures r.Some? <==> c.Basic?
    ensures r.Some? ==> c == Basic(r.value)
  {
    match c
    case Basic(b) => Some(b)
    case _ => None
  }

  function AsX509(c: Credential): (r: Option<CertificateChain>)
    ensures r.Some? <==> c.X509?
    ensures r.Some? ==> c == Credential.X509(r.value)
  {
    match c
    case X509(chain) => Some(chain)
    case _ => None
  }

  function AsCustom(c: Credential): (r: Option<CustomCredential>)
    ensures r.Some? <==> c.Custom?
    ensures r.Some? ==> c == Custom(r.value)
  {
    match c
    case Custom(custom) => Some(custom)
    case _ => None
  }

  /** The inner codecs; custom data is a `ByteVec` with a `width`-byte prefix.
      One `chain` codec stands for both the `DefVec` encoding and size used to
      write an X.509 body and `CertificateChain`'s own decoder used to read
      it, so a round trip through `chain` takes those two to agree. */
  datatype CredentialCodecs = CredentialCodecs(
    basic: Codec<BasicCredential>,
    chain: Codec<CertificateChain>,
    width: nat)

  const ReservedCustomTypeMessage: string := "custom credential types can not be set to defined values of 0-2"

  /** A custom credential may not claim a type value of 0, 1 or 2. */
  predicate ReservedCustomType(c: Credential) {
    c.Custom? && c.custom.credential_type.raw <= 2
  }

  /** `Size for Credential`: the two type bytes plus the inner size. */
  function CredentialSize(cs: CredentialCodecs, c: Credential): nat {
    2 + match c
        case Basic(b) => cs.basic.size(b)
        case X509(chain) => cs.chain.size(chain)
        case Custom(custom) => ByteVec(cs.width).size(custom.data)
  }

  function InnerEmission(cs: CredentialCodecs, c: Credential): Emission {
    match c
    case Basic(b) => Emit(cs.basic.encode(b))
    case X509(chain) => Emit(cs.chain.encode(chain))
    case Custom(custom) =>
      if custom.credential_type.raw <= 2 then Fail(EncodingError(ReservedCustomTypeMessage))
      else Emit(ByteVec(cs.width).encode(custom.data))
  }

  /** `Serialize for Credential`: the type is written first, so a custom
      credential with a reserved type fails after those two bytes. */
  function CredentialEmission(cs: CredentialCodecs, c: Credential): (e: Emission)
    ensures Counted(e)
    ensures |e.written| >= 2 && e.written[..2] == EncodeU16(CredentialTypeOf(c).raw)
    ensures ReservedCustomType(c) ==>
      e == Emission(EncodeU16(CredentialTypeOf(c).raw), Err(EncodingError(ReservedCustomTypeMessage)))
    ensures c.Basic? ==> (e.result.Ok? <==> cs.basic.encode(c.basic).Ok?)
    ensures c.X509? ==> (e.result.Ok? <==> cs.chain.encode(c.chain).Ok?)
    ensures c.Custom? && !ReservedCustomType(c) ==>
      (e.result.Ok? <==> |c.custom.data| < Pow256(cs.width))
    ensures e.result.Ok? ==> e.written == EncodeU16(CredentialTypeOf(c).raw) + match c
      case Basic(b) => cs.basic.encode(b).value
      case X509(chain) => cs.chain.encode(chain).value
      case Custom(custom) => EncodeVec(cs.width, custom.data).value
  {
    Then(Emission(EncodeU16(CredentialTypeOf(c).raw), Ok(2)), InnerEmission(cs, c))
  }

  lemma CredentialSizeMatches(cs: CredentialCodecs, c: Credential)
    requires c.Basic? ==> SizeExactAt(cs.basic, c.basic)
    requires c.X509? ==> SizeExactAt(cs.chain, c.chain)
    ensures CredentialEmission(cs, c).result.Ok? ==>
      CredentialEmission(cs, c).result == Ok(CredentialSize(cs, c))
      && |CredentialEmission(cs, c).written| == CredentialSize(cs, c)
  {
    if c.Custom? {
      ByteVecLaws(cs.width, c.custom.data);
    }
  }

  /** `Deserialize for Credential`: types 1 and 2 select the basic and X.509
      decoders, every other value (0 included) is read as custom data. */
  function DecodeCredential(cs: CredentialCodecs, bs: Bytes): (r: Result<(Credential, Bytes), CodecError>)
    ensures |bs| < 2 ==> r == Err(ReadU16(bs).error)
    ensures r.Ok? ==> 2 <= |bs| && ReadU16(bs).value.0 == CredentialTypeOf(r.value.0).raw
    ensures r.Ok? ==> (ReadU16(bs).value.0 == 1 <==> r.value.0.Basic?) && (ReadU16(bs).value.0 == 2 <==> r.value.0.X509?)
    ensures r.Ok? && r.value.0.Basic? ==> cs.basic.decode(bs[2..]) == Ok((r.value.0.basic, r.value.1))
    ensures r.Ok? && r.value.0.X509? ==> cs.chain.decode(bs[2..]) == Ok((r.value.0.chain, r.value.1))
    ensures r.Ok? && r.value.0.Custom? ==> ByteVec(cs.width).decode(bs[2..]) == Ok((r.value.0.custom.data, r.value.1))
    ensures 2 <= |bs| ==>
      var raw := ReadU16(bs).value.0;
      (r.Ok? <==> if raw == 1 then cs.basic.decode(bs[2..]).Ok?
                  else if raw == 2 then cs.chain.decode(bs[2..]).Ok?
                  else ByteVec(cs.width).decode(bs[2..]).Ok?)
  {
    match ReadU16(bs)
    case Err(e) => Err(e)
    case Ok((raw, rest)) =>
      if raw == BASIC.raw then
        match cs.basic.decode(rest)
        case Err(e) => Err(e)
        case Ok((b, after)) => Ok((Basic(b), after))
      else if raw == X509.raw then
        match cs.chain.decode(rest)
        case Err(e) => Err(e)
        case Ok((chain, after)) => Ok((Credential.X509(chain), after))
      else
        match ByteVec(cs.width).decode(rest)
        case Err(e) => Err(e)
        case Ok((data, after)) => Ok((Custom(CustomCredential(CredentialType(raw), data)), after))
  }

  ghost predicate InnerRoundTripsAt(cs: CredentialCodecs, c: Credential) {
    match c
    case Basic(b) => RoundTripsAt(cs.basic, b)
    case X509(chain) => RoundTripsAt(cs.chain, chain)
    case Custom(_) => true
  }

  /** Whatever encodes decodes back to itself, whatever follows it. */
  lemma {:induction false} CredentialRoundTrip(cs: CredentialCodecs, c: Credential, rest: Bytes)
    requires InnerRoundTripsAt(cs, c)
    requires CredentialEmission(cs, c).result.Ok?
    ensures DecodeCredential(cs, CredentialEmission(cs, c).written + rest) == Ok((c, rest))
  {
    var t := EncodeU16(CredentialTypeOf(c).raw);
    var inner := InnerEmission(cs, c).written;
    assert CredentialEmission(cs, c).written + rest == t + (inner + rest);
    ReadEncodedU16(CredentialTypeOf(c).raw, inner + rest);
    match c
    case Basic(b) =>
      assert cs.basic.decode(inner + rest) == Ok((b, rest));
    case X509(chain) =>
      assert cs.chain.decode(inner + rest) == Ok((chain, rest));
    case Custom(custom) =>
      ByteVecLaws(cs.width, custom.data);
      assert ByteVec(cs.width).decode(inner + rest) == Ok((custom.data, rest));
  }

  /** The decoder is more permissive than the encoder: type 0 followed by a
      byte vector reads as a custom credential that cannot be written back. */
  lemma {:induction false} DecodedTypeZeroNotReencodable(cs: CredentialCodecs, data: Bytes, rest: Bytes)
    requires |data| < Pow256(cs.width)
    ensures DecodeCredential(cs, EncodeU16(0) + EncodeVec(cs.width, data).value + rest)
      == Ok((Custom(CustomCredential(CredentialType(0), data)), rest))
    ensures CredentialEmission(cs, Custom(CustomCredential(CredentialType(0), data))).result
      == Err(EncodingError(ReservedCustomTypeMessage))
  {
    var v := EncodeVec(cs.width, data).value;
    assert EncodeU16(0) + v + rest == EncodeU16(0) + (v + rest);
    ReadEncodedU16(0, v + rest);
    VecRoundTrip(cs.width, data, rest);
  }

  /** `Credential::tls_serialize`, threading the writer. */
  method SerializeCredential(cs: CredentialCodecs, c: Credential, w: Writer) returns (r: Result<nat, CodecError>)
    modifies w
    ensures w.written == old(w.written) + CredentialEmission(cs, c).written
    ensures r == CredentialEmission(cs, c).result
  {
    var typeLen := w.Write(Ok(EncodeU16(CredentialTypeOf(c).raw)));
    var innerLen: Result<nat, CodecError>;
    match c {
      case Basic(b) =>
        innerLen := w.Write(cs.basic.encode(b));
      case X509(chain) =>
        innerLen := w.Write(cs.chain.encode(chain));
      case Custom(custom) =>
        if custom.credential_type.raw <= 2 {
          return Err(EncodingError(ReservedCustomTypeMessage));
        }
        innerLen := w.Write(ByteVec(cs.width).encode(custom.data));
    }
    if innerLen.Err? {
      return Err(innerLen.error);
    }
    r := Ok(typeLen.value + innerLen.value);
  }

  /** `Credential::tls_deserialize`, threading the reader. */
  method DeserializeCredential(cs: CredentialCodecs, rd: Reader) returns (r: Result<Credential, CodecError>)
    modifies rd
    ensures DecodeCredential(cs, old(rd.remaining)).Ok? ==>
      r == Ok(DecodeCredential(cs, old(rd.remaining)).value.0)
      && rd.remaining == DecodeCredential(cs, old(rd.remaining)).value.1
    ensures DecodeCredential(cs, old(rd.remaining)).Err? ==>
      r == Err(DecodeCredential(cs, old(rd.remaining)).error)
  {
    var raw := rd.Read(ReadU16);
    if raw.Err? {
      return Err(raw.error);
    }
    if raw.value == BASIC.raw {
      var b := rd.Read(cs.basic.decode);
      if b.Err? {
        return Err(b.error);
      }
      r := Ok(Basic(b.value));
    } else if raw.value == X509.raw {
      var chain := rd.Read(cs.chain.decode);
      if chain.Err? {
        return Err(chain.error);
      }
      r := Ok(Credential.X509(chain.value));
    } else {
      var data := rd.Read(ByteVec(cs.width).decode);
      if data.Err? {
        return Err(data.error);
      }
      r := Ok(Custom(CustomCredential(CredentialType(raw.value), data.value)));
    }
  }
}
