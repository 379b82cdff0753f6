/** Leaf-node capabilities (src/tree_kem/capabilities.rs): five lists of 16-bit
    code points, each encoded as a `DefVec` behind a `w`-byte length prefix, and
    the default lists. In this snapshot credential, extension and proposal
    types are bare `u16` values. */
module TreeKemCapabilities {
  import opened Wrappers
  import opened Tls
  import opened CipherSuites

  type CredentialType = uint16
  type ExtensionType = uint16
  type ProposalType = uint16

  /** The registered values of section 17.5 of RFC 9420. */
  const CREDENTIAL_TYPE_BASIC: CredentialType := 1
  const CREDENTIAL_TYPE_X509: CredentialType := 2

  datatype Capabilities = Capabilities(
    protocol_versions: seq<ProtocolVersion>,
    cipher_suites: seq<MaybeCipherSuite>,
    extensions: seq<ExtensionType>,
    proposals: seq<ProposalType>,
    credentials: seq<CredentialType>)

  function MaybeSuites(suites: seq<CipherSuite>): (r: seq<MaybeCipherSuite>)
    ensures |r| == |suites|
    ensures forall i :: 0 <= i < |r| ==> r[i] == MaybeSuite(suites[i])
  {
    if suites == [] then [] else [MaybeSuite(suites[0])] + MaybeSuites(suites[1..])
  }

  /** `Capabilities::default()`. */
  function Default(): (c: Capabilities)
    ensures c.protocol_versions == [Mls10] && c.extensions == [] && c.proposals == []
    ensures c.credentials == [CREDENTIAL_TYPE_BASIC, CREDENTIAL_TYPE_X509]
    ensures |c.cipher_suites| == |All()|
    ensures ListsFit(1, c)
  {
    Capabilities([Mls10], MaybeSuites(All()), [], [], [CREDENTIAL_TYPE_BASIC, CREDENTIAL_TYPE_X509])
  }

  /** The default lists: version mls10 only, every cipher suite in the order
      of `All()`, no extensions or proposals, and the basic then the X.509
      credential type. */
  lemma DefaultLists()
    ensures Default().protocol_versions == [Mls10]
    ensures |Default().cipher_suites| == |All()|
    ensures forall i :: 0 <= i < |All()| ==> Default().cipher_suites[i] == MaybeSuite(All()[i])
    ensures Default().extensions == [] && Default().proposals == []
    ensures Default().credentials == [1, 2]
  {
  }

  /** Every cipher suite is advertised by default, and nothing else is. */
  lemma DefaultAdvertisesEverySuite(m: MaybeCipherSuite)
    ensures m in Default().cipher_suites <==> exists cs: CipherSuite :: m == MaybeSuite(cs)
  {
    var suites := Default().cipher_suites;
    if m in suites {
      var i :| 0 <= i < |suites| && suites[i] == m;
      assert m == MaybeSuite(All()[i]);
    }
    if cs: CipherSuite :| m == MaybeSuite(cs) {
      AllComplete(cs);
      var i :| 0 <= i < |All()| && All()[i] == cs;
      assert suites[i] == m;
    }
  }

  // ---------------------------------------------------------------------------
  // Lists of 16-bit code points

  /** The body of a `DefVec` of 16-bit values. */
  function U16sBytes<T>(toRaw: T -> uint16, xs: seq<T>): (bs: Bytes)
    ensures |bs| == 2 * |xs|
  {
    if xs == [] then [] else EncodeU16(toRaw(xs[0])) + U16sBytes(toRaw, xs[1..])
  }

  /** Reads 16-bit values until the body is exhausted. */
  function DecodeU16s<T>(fromRaw: uint16 -> Result<T, CodecError>, body: Bytes): (r: Result<seq<T>, CodecError>)
    ensures r.Ok? ==> |body| == 2 * |r.value|
    decreases |body|
  {
    if body == [] then Ok([])
    else
      match ReadU16(body)
      case Err(e) => Err(e)
      case Ok((raw, rest)) =>
        match fromRaw(raw)
        case Err(e) => Err(e)
        case Ok(x) =>
          match DecodeU16s(fromRaw, rest)
          case Err(e) => Err(e)
          case Ok(xs) => Ok([x] + xs)
  }

  lemma {:induction false} U16sRoundTrip<T>(toRaw: T -> uint16, fromRaw: uint16 -> Result<T, CodecError>, xs: seq<T>)
    requires forall i :: 0 <= i < |xs| ==> fromRaw(toRaw(xs[i])) == Ok(xs[i])
    ensures DecodeU16s(fromRaw, U16sBytes(toRaw, xs)) == Ok(xs)
    decreases |xs|
  {
    if xs != [] {
      ReadEncodedU16(toRaw(xs[0]), U16sBytes(toRaw, xs[1..]));
      U16sRoundTrip(toRaw, fromRaw, xs[1..]);
      assert [xs[0]] + xs[1..] == xs;
    }
  }

  /** `DefVec` of 16-bit values. */
  function EncodeList<T>(w: nat, toRaw: T -> uint16, xs: seq<T>): Result<Bytes, CodecError> {
    EncodeVec(w, U16sBytes(toRaw, xs))
  }

  function DecodeList<T>(w: nat, fromRaw: uint16 -> Result<T, CodecError>, bs: Bytes): Result<(seq<T>, Bytes), CodecError> {
    match ReadVec(w, bs)
    case Err(e) => Err(e)
    case Ok((body, rest)) =>
      match DecodeU16s(fromRaw, body)
      case Err(e) => Err(e)
      case Ok(xs) => Ok((xs, rest))
  }

  lemma {:induction false} ListRoundTrip<T>(w: nat, toRaw: T -> uint16, fromRaw: uint16 -> Result<T, CodecError>, xs: seq<T>, rest: Bytes)
    requires forall i :: 0 <= i < |xs| ==> fromRaw(toRaw(xs[i])) == Ok(xs[i])
    requires EncodeList(w, toRaw, xs).Ok?
    ensures DecodeList(w, fromRaw, EncodeList(w, toRaw, xs).value + rest) == Ok((xs, rest))
  {
    VecRoundTrip(w, U16sBytes(toRaw, xs), rest);
    U16sRoundTrip(toRaw, fromRaw, xs);
  }

  function VersionRaw(v: ProtocolVersion): uint16 { v.Value() }
  function SuiteRaw(m: MaybeCipherSuite): uint16 { m.raw }
  function SuiteFromRaw(raw: uint16): Result<MaybeCipherSuite, CodecError> { Ok(MaybeCipherSuite(raw)) }
  function Raw(x: uint16): uint16 { x }
  function FromRaw(raw: uint16): Result<uint16, CodecError> { Ok(raw) }

  // ---------------------------------------------------------------------------
  // The derived codec of Capabilities

  /** The derived `TlsSize`. */
  function CapabilitiesSize(w: nat, c: Capabilities): nat {
    5 * w + 2 * (|c.protocol_versions| + |c.cipher_suites| + |c.extensions| + |c.proposals| + |c.credentials|)
  }

  /** Each list fits its length prefix. */
  predicate ListsFit(w: nat, c: Capabilities) {
    2 * |c.protocol_versions| < Pow256(w) && 2 * |c.cipher_suites| < Pow256(w)
    && 2 * |c.extensions| < Pow256(w) && 2 * |c.proposals| < Pow256(w)
    && 2 * |c.credentials| < Pow256(w)
  }

  /** The derived `TlsSerialize`: the five lists in declaration order. */
  function EncodeCapabilities(w: nat, c: Capabilities): (r: Result<Bytes, CodecError>)
    ensures r.Ok? <==> ListsFit(w, c)
    ensures r.Ok? ==> |r.value| == CapabilitiesSize(w, c)
    ensures r.Err? ==> r.error == InvalidVectorLength
  {
    var versions :- EncodeList(w, VersionRaw, c.protocol_versions);
    var suites :- EncodeList(w, SuiteRaw, c.cipher_suites);
    var extensions :- EncodeList(w, Raw, c.extensions);
    var proposals :- EncodeList(w, Raw, c.proposals);
    var credentials :- EncodeList(w, Raw, c.credentials);
    Ok(versions + suites + extensions + proposals + credentials)
  }

  /** The derived `TlsDeserialize`; an unknown protocol version is an error,
      any cipher-suite value is kept. */
  function DecodeCapabilities(w: nat, bs: Bytes): Result<(Capabilities, Bytes), CodecError> {
    var versions :- DecodeList(w, ProtocolVersionFromValue, bs);
    var suites :- DecodeList(w, SuiteFromRaw, versions.1);
    var extensions :- DecodeList(w, FromRaw, suites.1);
    var proposals :- DecodeList(w, FromRaw, extensions.1);
    var credentials :- DecodeList(w, FromRaw, proposals.1);
    Ok((Capabilities(versions.0, suites.0, extensions.0, proposals.0, credentials.0), credentials.1))
  }

  /** A list read takes its prefix and `2` bytes per value from the front. */
  lemma DecodeListConsumes<T>(w: nat, fromRaw: uint16 -> Result<T, CodecError>, bs: Bytes, r: (seq<T>, Bytes))
    requires DecodeList(w, fromRaw, bs) == Ok(r)
    ensures w + 2 * |r.0| <= |bs| && r.1 == bs[w + 2 * |r.0|..]
  {
    var (body, rest) := ReadVec(w, bs).value;
    assert bs[w..] == body + rest;
    assert rest == bs[w + |body|..];
  }

  /** Five reads of `w + 2 * |list|` bytes each, in declaration order, leave
      what follows the capabilities' `CapabilitiesSize` bytes. */
  lemma SizesChain(w: nat, bs: Bytes, v: (seq<ProtocolVersion>, Bytes), s: (seq<MaybeCipherSuite>, Bytes),
                   x: (seq<uint16>, Bytes), p: (seq<uint16>, Bytes), k: (seq<uint16>, Bytes))
    requires w + 2 * |v.0| <= |bs| && v.1 == bs[w + 2 * |v.0|..]
    requires w + 2 * |s.0| <= |v.1| && s.1 == v.1[w + 2 * |s.0|..]
    requires w + 2 * |x.0| <= |s.1| && x.1 == s.1[w + 2 * |x.0|..]
    requires w + 2 * |p.0| <= |x.1| && p.1 == x.1[w + 2 * |p.0|..]
    requires w + 2 * |k.0| <= |p.1| && k.1 == p.1[w + 2 * |k.0|..]
    ensures var n := CapabilitiesSize(w, Capabilities(v.0, s.0, x.0, p.0, k.0)); n <= |bs| && k.1 == bs[n..]
  {
  }

  /** A successful decode is the five list reads in declaration order, each
      starting where the previous one stopped. */
  lemma DecodeCapabilitiesSteps(w: nat, bs: Bytes)
    requires DecodeCapabilities(w, bs).Ok?
    ensures var v := DecodeList(w, ProtocolVersionFromValue, bs);
      v.Ok? && (var s := DecodeList(w, SuiteFromRaw, v.value.1);
      s.Ok? && (var x := DecodeList(w, FromRaw, s.value.1);
      x.Ok? && (var p := DecodeList(w, FromRaw, x.value.1);
      p.Ok? && (var k := DecodeList(w, FromRaw, p.value.1);
      k.Ok? && DecodeCapabilities(w, bs).value == (Capabilities(v.value.0, s.value.0, x.value.0, p.value.0, k.value.0), k.value.1)))))
  {
  }

  /** Five list reads, each starting where the previous one stopped, end
      `CapabilitiesSize` bytes into the input. */
  lemma FiveListsConsume(w: nat, bs: Bytes, v: (seq<ProtocolVersion>, Bytes), s: (seq<MaybeCipherSuite>, Bytes),
                         x: (seq<uint16>, Bytes), p: (seq<uint16>, Bytes), k: (seq<uint16>, Bytes))
    requires DecodeList(w, ProtocolVersionFromValue, bs) == Ok(v)
    requires DecodeList(w, SuiteFromRaw, v.1) == Ok(s)
    requires DecodeList(w, FromRaw, s.1) == Ok(x)
    requires DecodeList(w, FromRaw, x.1) == Ok(p)
    requires DecodeList(w, FromRaw, p.1) == Ok(k)
    ensures var n := CapabilitiesSize(w, Capabilities(v.0, s.0, x.0, p.0, k.0)); n <= |bs| && k.1 == bs[n..]
  {
    DecodeListConsumes(w, ProtocolVersionFromValue, bs, v);
    DecodeListConsumes(w, SuiteFromRaw, v.1, s);
    DecodeListConsumes(w, FromRaw, s.1, x);
    DecodeListConsumes(w, FromRaw, x.1, p);
    DecodeListConsumes(w, FromRaw, p.1, k);
    SizesChain(w, bs, v, s, x, p, k);
  }

  /** Decoding reads exactly `CapabilitiesSize` bytes from the front of the
      input and leaves the rest unread. */
  lemma DecodeCapabilitiesConsumesSize(w: nat, bs: Bytes)
    requires DecodeCapabilities(w, bs).Ok?
    ensures var (c, rest) := DecodeCapabilities(w, bs).value;
      CapabilitiesSize(w, c) <= |bs| && rest == bs[CapabilitiesSize(w, c)..]
  {
    DecodeCapabilitiesSteps(w, bs);
    var v := DecodeList(w, ProtocolVersionFromValue, bs).value;
    var s := DecodeList(w, SuiteFromRaw, v.1).value;
    var x := DecodeList(w, FromRaw, s.1).value;
    var p := DecodeList(w, FromRaw, x.1).value;
    var k := DecodeList(w, FromRaw, p.1).value;
    FiveListsConsume(w, bs, v, s, x, p, k);
  }

  lemma {:induction false} CapabilitiesRoundTrip(w: nat, c: Capabilities, rest: Bytes)
    requires EncodeCapabilities(w, c).Ok?
    ensures DecodeCapabilities(w, EncodeCapabilities(w, c).value + rest) == Ok((c, rest))
  {
    var a := EncodeList(w, VersionRaw, c.protocol_versions).value;
    var b := EncodeList(w, SuiteRaw, c.cipher_suites).value;
    var x := EncodeList(w, Raw, c.extensions).value;
    var p := EncodeList(w, Raw, c.proposals).value;
    var k := EncodeList(w, Raw, c.credentials).value;
    var bs := a + (b + (x + (p + (k + rest))));
    assert EncodeCapabilities(w, c).value == a + b + x + p + k;
    assert (a + b + x + p + k) + rest == bs;
    forall i | 0 <= i < |c.protocol_versions|
      ensures ProtocolVersionFromValue(VersionRaw(c.protocol_versions[i])) == Ok(c.protocol_versions[i])
    {
      assert c.protocol_versions[i] == Mls10;
    }
    ListRoundTrip(w, VersionRaw, ProtocolVersionFromValue, c.protocol_versions, b + (x + (p + (k + rest))));
    ListRoundTrip(w, SuiteRaw, SuiteFromRaw, c.cipher_suites, x + (p + (k + rest)));
    ListRoundTrip(w, Raw, FromRaw, c.extensions, p + (k + rest));
    ListRoundTrip(w, Raw, FromRaw, c.proposals, k + rest);
    ListRoundTrip(w, Raw, FromRaw, c.credentials, rest);
    assert DecodeList(w, ProtocolVersionFromValue, bs) == Ok((c.protocol_versions, b + (x + (p + (k + rest)))));
  }

  /** With any length prefix of at least one byte the defaults encode, in
      `CapabilitiesSize` bytes, and decode back. */
  lemma DefaultEncodes(w: nat)
    requires w >= 1
    ensures EncodeCapabilities(w, Default()).Ok?
    ensures |EncodeCapabilities(w, Default()).value| == 5 * w + 20
    ensures DecodeCapabilities(w, EncodeCapabilities(w, Default()).value) == Ok((Default(), []))
  {
    assert Pow256(w) >= 256;
    assert |Default().cipher_suites| == 7;
    assert ListsFit(w, Default());
    CapabilitiesRoundTrip(w, Default(), []);
    assert EncodeCapabilities(w, Default()).value + [] == EncodeCapabilities(w, Default()).value;
  }
}
