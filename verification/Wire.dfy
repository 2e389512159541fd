/** Bytes, errors and the primitive field formats of the MQTT wire: single bytes,
    big-endian 16-bit integers and length-prefixed byte strings. The functions here are the
    specifications of the stateful decoders in `Streams.dfy`. */
module Wire {

  type byte = x: int | 0 <= x < 0x100
  type uint16 = x: int | 0 <= x < 0x1_0000
  type uint32 = x: int | 0 <= x < 0x1_0000_0000

  /** Go strings and byte slices alike; a nil slice and an empty one are not told apart. */
  type bytes = seq<byte>

  const MAX_STRING := 65535

  datatype Option<+T> = None | Some(value: T)

  /** The errors the codec returns. `Refused` carries the CONNACK return code to answer with. */
  datatype Error =
    | EOF
    | UnexpectedEOF
    | VarintOverflow
    | VarintTooLong
    | InvalidLength
    | UnsupportedType
    | NegativePayload
    | NotConnect
    | Refused(returnCode: byte)

  /** The outcome of a decoding method. */
  datatype Result<+T> = Success(value: T) | Failure(error: Error) {
    predicate IsFailure() {
      Failure?
    }

    function PropagateFailure<U>(): Result<U>
      requires Failure?
    {
      Failure(error)
    }

    function Extract(): T
      requires Success?
    {
      value
    }
  }

  /** The outcome of parsing a byte sequence: a value and the bytes not yet consumed. */
  datatype Parsed<+T> = Ok(value: T, rest: bytes) | Err(error: Error) {
    predicate IsFailure() {
      Err?
    }

    function PropagateFailure<U>(): Parsed<U>
      requires Err?
    {
      Err(error)
    }

    function Extract(): (T, bytes)
      requires Ok?
    {
      (value, rest)
    }

    function Outcome(): Result<T> {
      if Ok? then Success(value) else Failure(error)
    }
  }

  /** `t` is what remains of `s` after some bytes were taken from its front. */
  predicate IsSuffix(t: bytes, s: bytes) {
    |t| <= |s| && t == s[|s| - |t|..]
  }

  /** Exactly `n` bytes: a short input is `EOF` when nothing was left, `UnexpectedEOF` otherwise. */
  function ParseFull(s: bytes, n: nat): (r: Parsed<bytes>)
    ensures r.Ok? <==> n <= |s|
    ensures r.Ok? ==> |r.value| == n && |s| == n + |r.rest|
    ensures r.Err? ==> !r.error.Refused?
  {
    if n <= |s| then Ok(s[..n], s[n..])
    else if s == [] then Err(EOF)
    else Err(UnexpectedEOF)
  }

  function ParseByte(s: bytes): (r: Parsed<byte>)
    ensures r.Ok? <==> s != []
    ensures r.Ok? ==> |s| == 1 + |r.rest|
    ensures r.Err? ==> !r.error.Refused?
  {
    if s == [] then Err(EOF) else Ok(s[0], s[1..])
  }

  /** The rest of a PUBLISH: as many bytes as the announced length leaves. */
  function ParseMessage(s: bytes, payloadLength: int): (r: Parsed<bytes>)
    ensures r.Ok? ==> |s| == payloadLength + |r.rest| && |r.value| == payloadLength
    ensures r.Err? ==> !r.error.Refused?
  {
    if payloadLength < 0 then Err(NegativePayload) else ParseFull(s, payloadLength)
  }

  function EncodeUint16(v: uint16): (s: bytes)
    ensures |s| == 2
  {
    [v / 0x100, v % 0x100]
  }

  function ParseUint16(s: bytes): (r: Parsed<uint16>)
    ensures r.Ok? ==> |s| == 2 + |r.rest|
    ensures r.Err? ==> !r.error.Refused?
  {
    var (b, rest) :- ParseFull(s, 2);
    var hi: int, lo: int := b[0], b[1];
    Ok(hi * 0x100 + lo, rest)
  }

  /** The length prefix keeps only the low 16 bits of the length. */
  function EncodeBytes(b: bytes): (s: bytes)
    ensures |s| == 2 + |b|
  {
    EncodeUint16(|b| % 0x1_0000) + b
  }

  function ParseBytes(s: bytes): (r: Parsed<bytes>)
    ensures r.Ok? ==> |r.value| <= MAX_STRING && |s| == 2 + |r.value| + |r.rest|
    ensures r.Err? ==> !r.error.Refused?
  {
    var (n, s1) :- ParseUint16(s);
    ParseFull(s1, n)
  }

  lemma Uint16RoundTrip(v: uint16, t: bytes)
    ensures ParseUint16(EncodeUint16(v) + t) == Ok(v, t)
  {
    var s := EncodeUint16(v) + t;
    assert s[..2] == EncodeUint16(v) && s[2..] == t;
  }

  lemma FullRoundTrip(b: bytes, t: bytes)
    ensures ParseFull(b + t, |b|) == Ok(b, t)
  {
    assert (b + t)[..|b|] == b && (b + t)[|b|..] == t;
  }

  lemma FullExtend(s: bytes, n: nat, t: bytes)
    requires n <= |s|
    ensures ParseFull(s + t, n) == Ok(s[..n], s[n..] + t)
  {
    assert (s + t)[..n] == s[..n] && (s + t)[n..] == s[n..] + t;
  }

  /** A byte string survives the trip exactly when its length fits the 16-bit prefix. */
  lemma BytesRoundTrip(b: bytes, t: bytes)
    ensures ParseBytes(EncodeBytes(b) + t) == Ok(b, t) <==> |b| <= MAX_STRING
  {
    var s := EncodeBytes(b) + t;
    assert s == EncodeUint16(|b| % 0x1_0000) + (b + t);
    Uint16RoundTrip(|b| % 0x1_0000, b + t);
    if |b| <= MAX_STRING {
      FullRoundTrip(b, t);
    }
  }

  /** The bytes consumed are the encoding of the value. */
  lemma BytesSplit(s: bytes)
    requires ParseBytes(s).Ok?
    ensures s == EncodeBytes(ParseBytes(s).value) + ParseBytes(s).rest
  {
    var Ok(n, s1) := ParseUint16(s);
    assert s[..2] == EncodeUint16(n) && s == s[..2] + s1;
  }

  /** Parsing looks only at the bytes it consumes: more input behind them changes nothing. */
  lemma BytesExtend(s: bytes, t: bytes)
    requires ParseBytes(s).Ok?
    ensures ParseBytes(s + t) == Ok(ParseBytes(s).value, ParseBytes(s).rest + t)
  {
    var Ok(b, rest) := ParseBytes(s);
    BytesSplit(s);
    assert s + t == EncodeBytes(b) + (rest + t);
    BytesRoundTrip(b, rest + t);
  }
}
