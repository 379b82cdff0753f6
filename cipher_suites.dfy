/** Cipher suites and protocol versions. The repository's `cipher_suite` and
    `protocol_version` modules are not part of this model; the code points are
    the ones registered in section 17.1 of RFC 9420 (cipher suites) and section
    17.2 of RFC 9420 (mls10 = 1). The `Maybe` forms carry any 16-bit value read
    off the wire, known or not. */
module CipherSuites {
  import opened Wrappers
  import opened Tls

  datatype CipherSuite =
    | Curve25519Aes128
    | P256Aes128
    | Curve25519Chacha
    | Curve448Aes256
    | P521Aes256
    | Curve448Chacha
    | P384Aes256
  {
    function Value(): uint16 {
      match this
      case Curve25519Aes128 => 1
      case P256Aes128 => 2
      case Curve25519Chacha => 3
      case Curve448Aes256 => 4
      case P521Aes256 => 5
      case Curve448Chacha => 6
      case P384Aes256 => 7
    }
  }

  /** `CipherSuite::all()`, taken to list the suites in code-point order. */
  function All(): (r: seq<CipherSuite>)
    ensures |r| == 7
    ensures forall i :: 0 <= i < |r| ==> r[i].Value() as int == i + 1
  {
    [Curve25519Aes128, P256Aes128, Curve25519Chacha, Curve448Aes256,
     P521Aes256, Curve448Chacha, P384Aes256]
  }

  /** Every cipher suite is listed by `All()`. */
  lemma AllComplete(cs: CipherSuite)
    ensures cs in All()
  {
    assert All()[cs.Value() as int - 1] == cs;
  }

  lemma ValueInjective(a: CipherSuite, b: CipherSuite)
    ensures a.Value() == b.Value() ==> a == b
  {
  }

  datatype MaybeCipherSuite = MaybeCipherSuite(raw: uint16)

  /** `MaybeCipherSuite::from(CipherSuite)`. */
  function MaybeSuite(cs: CipherSuite): (m: MaybeCipherSuite)
    ensures m.raw == cs.Value()
  {
    MaybeCipherSuite(cs.Value())
  }

  datatype ProtocolVersion = Mls10 {
    function Value(): uint16 {
      1
    }
  }

  datatype MaybeProtocolVersion = MaybeProtocolVersion(raw: uint16)

  /** `MaybeProtocolVersion::from(ProtocolVersion)`. */
  function MaybeVersion(v: ProtocolVersion): (m: MaybeProtocolVersion)
    ensures m.raw == v.Value()
  {
    MaybeProtocolVersion(v.Value())
  }

  /** The derived decoder of `ProtocolVersion`: only known values decode. */
  function ProtocolVersionFromValue(raw: uint16): (r: Result<ProtocolVersion, CodecError>)
    ensures r.Ok? <==> raw == 1
    ensures r.Ok? ==> r.value.Value() == raw
  {
    if raw == 1 then Ok(Mls10) else Err(UnknownValue(raw as nat))
  }
}
