/** The HPKE test-vector filter (aws-mls-crypto-hpke/src/test_utils.rs): which
    HPKE test cases, described by their mode and their KEM, KDF and AEAD
    identifiers (sections 5, 7.1, 7.2 and 7.3 of RFC 9180), correspond to an MLS
    cipher suite (section 17.1 of RFC 9420). */
module HpkeTestVectors {
  import opened Wrappers
  import opened Tls
  import opened CipherSuites

  datatype TestCaseAlgo = TestCaseAlgo(kem_id: uint16, kdf_id: uint16, aead_id: uint16, mode: uint8)

  /** `ModeId::Base` and `ModeId::Psk`, section 5 of RFC 9180. */
  const MODE_BASE: uint8 := 0x00
  const MODE_PSK: uint8 := 0x01

  /** The KEM, KDF and AEAD a cipher suite is built from, as section 17.1 of
      RFC 9420 registers them. This is the reference the filter is checked
      against. */
  function HpkeIds(cs: CipherSuite): (uint16, uint16, uint16) {
    match cs
    case Curve25519Aes128 => (0x0020, 0x0001, 0x0001)
    case P256Aes128 => (0x0010, 0x0001, 0x0001)
    case Curve25519Chacha => (0x0020, 0x0001, 0x0003)
    case Curve448Aes256 => (0x0021, 0x0003, 0x0002)
    case P521Aes256 => (0x0012, 0x0003, 0x0002)
    case Curve448Chacha => (0x0021, 0x0003, 0x0003)
    case P384Aes256 => (0x0011, 0x0002, 0x0002)
  }

  /** The `match` of `filter_test_case`. */
  function SuiteFor(kem_id: uint16, kdf_id: uint16, aead_id: uint16): Option<CipherSuite> {
    match (kem_id, kdf_id, aead_id)
    case (0x0010, 0x0001, 0x0001) => Some(P256Aes128)
    case (0x0011, 0x0002, 0x0002) => Some(P384Aes256)
    case (0x0012, 0x0003, 0x0002) => Some(P521Aes256)
    case (0x0020, 0x0001, 0x0001) => Some(Curve25519Aes128)
    case (0x0020, 0x0001, 0x0003) => Some(Curve25519Chacha)
    case (0x0021, 0x0003, 0x0002) => Some(Curve448Aes256)
    case (0x0021, 0x0003, 0x0003) => Some(Curve448Chacha)
    case _ => None
  }

  /** `filter_test_case`: only base and PSK mode test cases are considered. */
  function FilterTestCase(algo: TestCaseAlgo): (r: Option<CipherSuite>)
    ensures algo.mode != MODE_BASE && algo.mode != MODE_PSK ==> r.None?
  {
    if algo.mode !in [MODE_BASE, MODE_PSK] then None
    else SuiteFor(algo.kem_id, algo.kdf_id, algo.aead_id)
  }

  /** A test case is kept for a suite exactly when its mode is base or PSK and
      its three identifiers are the ones that suite is built from. */
  lemma FilterMatchesRegistry(algo: TestCaseAlgo, cs: CipherSuite)
    ensures FilterTestCase(algo) == Some(cs) <==>
      (algo.mode == MODE_BASE || algo.mode == MODE_PSK) && (algo.kem_id, algo.kdf_id, algo.aead_id) == HpkeIds(cs)
  {
  }

  /** Exactly seven identifier triples are accepted; every other triple yields `None`. */
  lemma SevenTriples(kem_id: uint16, kdf_id: uint16, aead_id: uint16)
    ensures SuiteFor(kem_id, kdf_id, aead_id).Some? <==>
      (kem_id, kdf_id, aead_id) in {(0x0010, 0x0001, 0x0001), (0x0011, 0x0002, 0x0002), (0x0012, 0x0003, 0x0002),
                                    (0x0020, 0x0001, 0x0001), (0x0020, 0x0001, 0x0003), (0x0021, 0x0003, 0x0002),
                                    (0x0021, 0x0003, 0x0003)}
  {
  }

  /** Every MLS cipher suite is reached by some test case, and by one
      identifier triple only. */
  lemma FilterInjective(a: TestCaseAlgo, b: TestCaseAlgo)
    requires FilterTestCase(a).Some? && FilterTestCase(a) == FilterTestCase(b)
    ensures (a.kem_id, a.kdf_id, a.aead_id) == (b.kem_id, b.kdf_id, b.aead_id)
  {
    FilterMatchesRegistry(a, FilterTestCase(a).value);
    FilterMatchesRegistry(b, FilterTestCase(a).value);
  }

  lemma EverySuiteReached(cs: CipherSuite)
    ensures FilterTestCase(TestCaseAlgo(HpkeIds(cs).0, HpkeIds(cs).1, HpkeIds(cs).2, MODE_BASE)) == Some(cs)
  {
  }

  /** Base and PSK mode give the same answer for any triple. */
  lemma BaseAndPskAgree(algo: TestCaseAlgo)
    ensures FilterTestCase(algo.(mode := MODE_BASE)) == FilterTestCase(algo.(mode := MODE_PSK))
  {
  }
}
