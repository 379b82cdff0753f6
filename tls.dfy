/** The TLS presentation language as the codecs use it (sections 3.3 and 3.4
    of RFC 8446): fixed-width big-endian integers, byte vectors behind a length
    prefix of some width `w` (left as a parameter, since the prefix width of the
    repository's vector types is not fixed here), codecs, and the two cursors the
    hand-written codecs thread: a `Writer` that is appended to and a `Reader`
    whose unread input shrinks. */
module Tls {
  import opened Wrappers

  newtype uint8 = x: int | 0 <= x < 0x100
  newtype uint16 = x: int | 0 <= x < 0x1_0000
  newtype uint32 = x: int | 0 <= x < 0x1_0000_0000
  newtype uint64 = x: int | 0 <= x < 0x1_0000_0000_0000_0000

  type Bytes = seq<uint8>

  /** The error kinds of `tls_codec::Error` that the modelled code can raise. */
  datatype CodecError =
    | EncodingError(message: string)
    | DecodingError(message: string)
    | EndOfStream
    | InvalidVectorLength
    | UnknownValue(value: nat)

  function Pow256(w: nat): (p: nat)
    ensures p >= 1
  {
    if w == 0 then 1 else 256 * Pow256(w - 1)
  }

  /** Big-endian encoding of `n` in exactly `w` bytes. */
  function EncodeUint(n: nat, w: nat): (bs: Bytes)
    requires n < Pow256(w)
    ensures |bs| == w
  {
    if w == 0 then [] else EncodeUint(n / 256, w - 1) + [(n % 256) as uint8]
  }

  /** The big-endian value of a byte string. */
  function DecodeUint(bs: Bytes): (n: nat)
    ensures n < Pow256(|bs|)
  {
    if bs == [] then 0 else DecodeUint(bs[..|bs| - 1]) * 256 + bs[|bs| - 1] as nat
  }

  lemma {:induction false} DecodeEncodeUint(n: nat, w: nat)
    requires n < Pow256(w)
    ensures DecodeUint(EncodeUint(n, w)) == n
  {
    if w > 0 {
      var bs := EncodeUint(n, w);
      assert bs[..w - 1] == EncodeUint(n / 256, w - 1);
      DecodeEncodeUint(n / 256, w - 1);
    }
  }

  /** Reads a `w`-byte unsigned integer; fails at end of input. */
  function ReadUint(bs: Bytes, w: nat): (r: Result<(nat, Bytes), CodecError>)
    ensures r.Ok? <==> w <= |bs|
    ensures r.Ok? ==> r.value.0 < Pow256(w) && r.value.1 == bs[w..]
  {
    if |bs| < w then Err(EndOfStream) else Ok((DecodeUint(bs[..w]), bs[w..]))
  }

  lemma ReadEncodedUint(n: nat, w: nat, rest: Bytes)
    requires n < Pow256(w)
    ensures ReadUint(EncodeUint(n, w) + rest, w) == Ok((n, rest))
  {
    var bs := EncodeUint(n, w) + rest;
    assert bs[..w] == EncodeUint(n, w);
    assert bs[w..] == rest;
    DecodeEncodeUint(n, w);
  }

  function EncodeU16(x: uint16): (bs: Bytes)
    ensures |bs| == 2
  {
    assert Pow256(2) == 0x1_0000;
    EncodeUint(x as nat, 2)
  }

  function ReadU16(bs: Bytes): (r: Result<(uint16, Bytes), CodecError>)
    ensures r.Ok? <==> 2 <= |bs|
    ensures r.Ok? ==> r.value.0 as nat == DecodeUint(bs[..2]) && r.value.1 == bs[2..]
  {
    assert Pow256(2) == 0x1_0000;
    match ReadUint(bs, 2)
    case Err(e) => Err(e)
    case Ok((n, rest)) => Ok((n as uint16, rest))
  }

  lemma ReadEncodedU16(x: uint16, rest: Bytes)
    ensures ReadU16(EncodeU16(x) + rest) == Ok((x, rest))
  {
    assert Pow256(2) == 0x1_0000;
    ReadEncodedUint(x as nat, 2, rest);
  }

  /** A byte vector behind a `w`-byte length prefix; a body too long for the
      prefix cannot be encoded. */
  function EncodeVec(w: nat, body: Bytes): (r: Result<Bytes, CodecError>)
    ensures r.Ok? <==> |body| < Pow256(w)
    ensures r.Ok? ==> |r.value| == w + |body| && r.value[w..] == body
    ensures r.Err? ==> r.error == InvalidVectorLength
  {
    if |body| < Pow256(w) then Ok(EncodeUint(|body|, w) + body) else Err(InvalidVectorLength)
  }

  /** Reads a length prefix and then exactly that many bytes. */
  function ReadVec(w: nat, bs: Bytes): (r: Result<(Bytes, Bytes), CodecError>)
    ensures r.Ok? ==> w <= |bs| && r.value.0 + r.value.1 == bs[w..]
    ensures r.Ok? ==> |r.value.0| == DecodeUint(bs[..w])
  {
    match ReadUint(bs, w)
    case Err(e) => Err(e)
    case Ok((len, rest)) =>
      if len <= |rest| then
        assert rest[..len] + rest[len..] == rest;
        Ok((rest[..len], rest[len..]))
      else Err(EndOfStream)
  }

  lemma {:induction false} VecRoundTrip(w: nat, body: Bytes, rest: Bytes)
    requires |body| < Pow256(w)
    ensures ReadVec(w, EncodeVec(w, body).value + rest) == Ok((body, rest))
  {
    var prefix := EncodeUint(|body|, w);
    assert EncodeVec(w, body).value + rest == prefix + (body + rest);
    ReadEncodedUint(|body|, w, body + rest);
    assert (body + rest)[..|body|] == body;
    assert (body + rest)[|body|..] == rest;
  }

  /** A codec for values of type T: the length it announces, its encoder and a
      decoder that consumes a prefix of its input and returns the rest. */
  datatype Codec<!T> = Codec(
    size: T -> nat,
    encode: T -> Result<Bytes, CodecError>,
    decode: Bytes -> Result<(T, Bytes), CodecError>)

  /** The announced size of `x` is the length of its encoding. */
  ghost predicate SizeExactAt<T>(c: Codec<T>, x: T) {
    c.encode(x).Ok? ==> |c.encode(x).value| == c.size(x)
  }

  /** Decoding the encoding of `x`, whatever follows it, gives back `x` and
      leaves exactly what followed. */
  ghost predicate RoundTripsAt<T>(c: Codec<T>, x: T) {
    c.encode(x).Ok? ==> forall rest :: c.decode(c.encode(x).value + rest) == Ok((x, rest))
  }

  /** `crate::tls::ByteVec` with a `w`-byte length prefix. */
  function ByteVec(w: nat): Codec<Bytes> {
    Codec(data => w + |data|, data => EncodeVec(w, data), bs => ReadVec(w, bs))
  }

  lemma ByteVecLaws(w: nat, data: Bytes)
    ensures SizeExactAt(ByteVec(w), data)
    ensures RoundTripsAt(ByteVec(w), data)
  {
    if |data| < Pow256(w) {
      forall rest: Bytes ensures ReadVec(w, EncodeVec(w, data).value + rest) == Ok((data, rest)) {
        VecRoundTrip(w, data, rest);
      }
    }
  }

  /** What a serializer leaves behind: the bytes it wrote to the writer (also
      when it fails part-way) and what it returned. */
  datatype Emission = Emission(written: Bytes, result: Result<nat, CodecError>)

  /** The returned byte count, if any, is the number of bytes written. */
  ghost predicate Counted(e: Emission) {
    e.result.Ok? ==> e.result.value == |e.written|
  }

  /** An inner encoder run against the writer: all of its bytes or none. */
  function Emit(encoded: Result<Bytes, CodecError>): Emission {
    match encoded
    case Ok(bs) => Emission(bs, Ok(|bs|))
    case Err(e) => Emission([], Err(e))
  }

  /** An encoder that fails before writing anything. */
  function Fail(e: CodecError): Emission {
    Emission([], Err(e))
  }

  /** `first?` followed by `next?`: once `first` fails nothing more is
      written; otherwise the writes accumulate and the counts add up. */
  function Then(first: Emission, next: Emission): (e: Emission)
    ensures first.result.Err? ==> e == first
    ensures first.result.Ok? ==> e.written == first.written + next.written
    ensures e.result.Ok? <==> first.result.Ok? && next.result.Ok?
    ensures e.result.Ok? ==> e.result.value == first.result.value + next.result.value
    ensures Counted(first) && Counted(next) ==> Counted(e)
  {
    if first.result.Err? then first
    else match next.result
      case Ok(n) => Emission(first.written + next.written, Ok(first.result.value + n))
      case Err(err) => Emission(first.written + next.written, Err(err))
  }

  /** `tls_serialize_detached`: serialize into a fresh buffer. */
  function Detached(e: Emission): Result<Bytes, CodecError> {
    if e.result.Ok? then Ok(e.written) else Err(e.result.error)
  }

  /** The `Write` cursor: an in-memory buffer that is only appended to. */
  class Writer {
    var written: Bytes

    constructor ()
      ensures written == []
    {
      written := [];
    }

    /** Runs an inner encoder whose outcome is `encoded`. */
    method Write(encoded: Result<Bytes, CodecError>) returns (r: Result<nat, CodecError>)
      modifies this
      ensures written == old(written) + Emit(encoded).written
      ensures r == Emit(encoded).result
    {
      match encoded
      case Ok(bs) =>
        written := written + bs;
        r := Ok(|bs|);
      case Err(e) =>
        r := Err(e);
    }

    /** `std::io::Write::write` on an in-memory buffer takes every byte. */
    method WriteRaw(data: Bytes) returns (n: nat)
      modifies this
      ensures written == old(written) + data
      ensures n == |data|
    {
      written := written + data;
      n := |data|;
    }
  }

  /** The `Read` cursor over a byte slice: the input not yet consumed. */
  class Reader {
    var remaining: Bytes

    constructor (input: Bytes)
      ensures remaining == input
    {
      remaining := input;
    }

    /** Runs an inner decoder; it consumes nothing when it fails. */
    method Read<T>(decode: Bytes -> Result<(T, Bytes), CodecError>) returns (r: Result<T, CodecError>)
      modifies this
      ensures decode(old(remaining)).Ok? ==>
        r == Ok(decode(old(remaining)).value.0) && remaining == decode(old(remaining)).value.1
      ensures decode(old(remaining)).Err? ==>
        r == Err(decode(old(remaining)).error) && remaining == old(remaining)
    {
      match decode(remaining)
      case Ok((x, rest)) =>
        remaining := rest;
        r := Ok(x);
      case Err(e) =>
        r := Err(e);
    }

    /** `read_to_end` on a slice: everything that is left. */
    method ReadToEnd() returns (data: Bytes)
      modifies this
      ensures data == old(remaining)
      ensures remaining == []
    {
      data := remaining;
      remaining := [];
    }
  }
}
