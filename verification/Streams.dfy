/** The stateful byte streams of the codec and the decoders and encoders that work on them. */
module Streams {
  import opened Wire
  import opened Varint

  /** A byte source together with the wrappers the codec puts around it: `replay` is the unread
      part of the first reader of an `io.MultiReader`, and `consumed` holds the bytes handed out
      so far, which are the buffer of an `io.TeeReader` and, by their number, the count of a
      `CountingReader`. */
  class Reader {
    var replay: bytes
    var unread: bytes
    var consumed: bytes

    constructor (data: bytes)
      ensures replay == [] && unread == data && consumed == []
    {
      replay, unread, consumed := [], data, [];
    }

    /** The bytes still to be read. */
    ghost function Rest(): (s: bytes)
      reads this
    {
      replay + unread
    }

    /** All bytes, read and unread: reading never changes it. */
    ghost function Total(): (s: bytes)
      reads this
    {
      consumed + Rest()
    }

    /** What every read keeps: no byte is lost or reordered, and the source behind a replay is
        not touched before the replay is used up. */
    twostate predicate Advanced()
      reads this
    {
      && Total() == old(Total())
      && (replay == [] || (old(replay) != [] && unread == old(unread)))
    }

    /** `io.ReadFull`: a short input is consumed entirely before the error is returned. */
    method ReadFull(n: nat) returns (res: Result<bytes>)
      modifies this
      ensures Advanced()
      ensures res == ParseFull(old(Rest()), n).Outcome()
      ensures Rest() == if res.Success? then old(Rest())[n..] else []
    {
      if n <= |replay| {
        res := Success(replay[..n]);
        assert Rest()[..n] == replay[..n] && Rest()[n..] == replay[n..] + unread;
        consumed, replay := consumed + replay[..n], replay[n..];
      } else if n <= |replay| + |unread| {
        var k := n - |replay|;
        res := Success(replay + unread[..k]);
        assert Rest()[..n] == replay + unread[..k] && Rest()[n..] == unread[k..];
        consumed, replay, unread := consumed + (replay + unread[..k]), [], unread[k..];
      } else {
        res := Failure(if |replay| + |unread| == 0 then EOF else UnexpectedEOF);
        consumed, replay, unread := consumed + (replay + unread), [], [];
      }
    }

    /** `io.TeeReader` into an empty buffer. */
    method Tee()
      modifies this`consumed
      ensures consumed == []
    {
      consumed := [];
    }

    /** `io.MultiReader` over a copy of what was read through the tee and the source itself. */
    method Rewind()
      requires replay == []
      modifies this
      ensures Rest() == old(Total()) && replay == old(consumed) && consumed == []
      ensures unread == old(unread)
    {
      replay, consumed := consumed, [];
    }
  }

  /** The outcome of an `Unpack` is the parser's: the packet it assigned is the parsed one, and the
      reader is left where the parser stopped; errors are the parser's errors. */
  ghost predicate Unpacked<T>(res: Result<()>, r: Reader, parsed: Parsed<T>, p: T)
    reads r
  {
    match parsed
    case Ok(q, rest) => res == Success(()) && p == q && r.Rest() == rest
    case Err(e) => res == Failure(e)
  }

  method DecodeByte(r: Reader) returns (res: Result<byte>)
    modifies r
    ensures r.Advanced()
    ensures res == ParseByte(old(r.Rest())).Outcome()
    ensures res.Success? ==> r.Rest() == ParseByte(old(r.Rest())).rest
  {
    var b :- r.ReadFull(1);
    res := Success(b[0]);
  }

  method DecodeUint16(r: Reader) returns (res: Result<uint16>)
    modifies r
    ensures r.Advanced()
    ensures res == ParseUint16(old(r.Rest())).Outcome()
    ensures res.Success? ==> r.Rest() == ParseUint16(old(r.Rest())).rest
  {
    var b :- r.ReadFull(2);
    var hi: int, lo: int := b[0], b[1];
    res := Success(hi * 0x100 + lo);
  }

  /** `DecodeBytes` and `DecodeString`. */
  method DecodeBytes(r: Reader) returns (res: Result<bytes>)
    modifies r
    ensures r.Advanced()
    ensures res == ParseBytes(old(r.Rest())).Outcome()
    ensures res.Success? ==> r.Rest() == ParseBytes(old(r.Rest())).rest
  {
    var length :- DecodeUint16(r);
    var b :- r.ReadFull(length);
    res := Success(b);
  }

  method DecodeMessage(r: Reader, payloadLength: int) returns (res: Result<bytes>)
    modifies r
    ensures r.Advanced()
    ensures res == ParseMessage(old(r.Rest()), payloadLength).Outcome()
    ensures res.Success? ==> r.Rest() == ParseMessage(old(r.Rest()), payloadLength).rest
  {
    if payloadLength < 0 {
      return Failure(NegativePayload);
    }
    res := r.ReadFull(payloadLength);
  }

  /** Counts the bytes a varint takes from its reader. */
  class ByteReader {
    const reader: Reader
    var bytesRead: nat

    constructor (r: Reader)
      ensures reader == r && bytesRead == 0
    {
      reader, bytesRead := r, 0;
    }

    method ReadByte() returns (res: Result<byte>)
      modifies this, reader
      ensures reader.Advanced()
      ensures res == ParseByte(old(reader.Rest())).Outcome()
      ensures res.Success? ==> reader.Rest() == old(reader.Rest())[1..]
      ensures bytesRead == old(bytesRead) + if res.Success? then 1 else 0
    {
      var b :- reader.ReadFull(1);
      bytesRead := bytesRead + 1;
      res := Success(b[0]);
    }
  }

  /** `binary.ReadUvarint` of the standard library followed by the four-byte check. The
      accumulator stays below 2^63 until a tenth byte of at most 1, so 64 bits never overflow. */
  method DecodeUvarint(r: Reader) returns (res: Result<nat>)
    modifies r
    ensures r.Advanced()
    ensures res == ParseUvarint(old(r.Rest())).Outcome()
    ensures res.Success? ==> r.Rest() == ParseUvarint(old(r.Rest())).rest
  {
    hide ParseUvarint;
    var byteReader := new ByteReader(r);
    ghost var s := r.Rest();
    var x: int, scale: int, i: int := 0, 1, 0;
    while i < 10
      invariant 0 <= i <= 10 && i <= |s| && byteReader.reader == r && byteReader.bytesRead == i
      invariant fresh(byteReader)
      invariant r.Advanced() && r.Rest() == s[i..]
      invariant forall j :: 0 <= j < i ==> s[j] >= 0x80
      invariant x == Base128(s[..i]) && scale == Pow128(i)
    {
      var next := byteReader.ReadByte();
      if next.Failure? {
        VarintUnfinished(s);
        return Failure(if i > 0 && next.error == EOF then UnexpectedEOF else next.error);
      }
      var b: int := next.value;
      if b < 0x80 {
        VarintEnds(s, i);
        if i == 9 && b > 1 {
          return Failure(VarintOverflow);
        }
        if byteReader.bytesRead > 4 {
          return Failure(VarintTooLong);
        }
        return Success(x + b * scale);
      }
      assert s[..i + 1] == s[..i] + [next.value];
      Base128Append(s[..i], next.value);
      x := x + b % 0x80 * scale;
      scale := 0x80 * scale;
      i := i + 1;
    }
    VarintEndless(s);
    res := Failure(VarintOverflow);
  }

  /** What the last byte of a varint decides. */
  lemma VarintEnds(s: bytes, i: nat)
    requires i < 10 && i < |s| && s[i] < 0x80 && forall j :: 0 <= j < i ==> s[j] >= 0x80
    ensures ParseUvarint(s) ==
            if i == 9 && s[i] > 1 then Err(VarintOverflow)
            else if i >= 4 then Err(VarintTooLong)
            else Ok(Base128(s[..i]) + s[i] * Pow128(i), s[i + 1..])
  {
    hide Base128, Continuations, Pow128;
    ContinuationsAre(s, i);
    assert Base128(s[..i + 1]) == Base128(s[..i]) + s[i] * Pow128(i) by {
      Base128Append(s[..i], s[i]);
      assert s[..i + 1] == s[..i] + [s[i]];
    }
  }

  lemma VarintUnfinished(s: bytes)
    requires forall j :: 0 <= j < |s| ==> s[j] >= 0x80
    requires |s| < 10
    ensures ParseUvarint(s) == Err(if s == [] then EOF else UnexpectedEOF)
  {
    ContinuationsAre(s, |s|);
  }

  lemma VarintEndless(s: bytes)
    requires |s| >= 10 && forall i :: 0 <= i < 10 ==> s[i] >= 0x80
    ensures ParseUvarint(s) == Err(VarintOverflow)
  {
    ContinuationsAtLeast(s, 10);
  }

  /** `bytes.Buffer`, and any writer a packet is written to. */
  class Buffer {
    var contents: bytes

    constructor ()
      ensures contents == []
    {
      contents := [];
    }

    method WriteByte(b: byte)
      modifies this
      ensures contents == old(contents) + [b]
    {
      contents := contents + [b];
    }

    method Write(b: bytes)
      modifies this
      ensures contents == old(contents) + b
    {
      contents := contents + b;
    }
  }

  method WriteUvarint(buffer: Buffer, value: uint32) returns (n: nat)
    modifies buffer
    ensures buffer.contents == old(buffer.contents) + Uvarint(value)
    ensures n == |Uvarint(value)|
  {
    var x: int := value;
    n := 0;
    while x >= 0x80
      invariant x >= 0 && n + |Uvarint(x)| == |Uvarint(value)|
      invariant buffer.contents + Uvarint(x) == old(buffer.contents) + Uvarint(value)
    {
      ghost var written := buffer.contents;
      buffer.WriteByte(x % 0x80 + 0x80);
      assert written + Uvarint(x) == buffer.contents + Uvarint(x / 0x80);
      x := x / 0x80;
      n := n + 1;
    }
    buffer.WriteByte(x);
    n := n + 1;
  }
}
