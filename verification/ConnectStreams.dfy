/** Reading and writing the part of CONNECT that both versions share. */
module ConnectStreams {
  import opened Wire
  import opened Streams
  import opened Connect

  /** Appending one part after the other lays out the nested concatenation of the formats. */
  lemma Reassociate(a: bytes, b: bytes, c: bytes, d: bytes, e: bytes, f: bytes)
    ensures a + b + c + d + e + f == a + (b + (c + (d + (e + f))))
  {
  }

  method WriteVariableHeader(body: Buffer, v: VariableHeader)
    modifies body
    ensures body.contents == old(body.contents) + v.Encode()
  {
    hide EncodeBytes, EncodeUint16, Flags.Encode;
    body.Write(EncodeBytes(v.protocolName));
    body.WriteByte(v.protocolLevel);
    body.WriteByte(v.flags.Encode());
    body.Write(EncodeUint16(v.keepAlive));
  }

  method WriteOptional(body: Buffer, present: bool, b: bytes)
    modifies body
    ensures body.contents == old(body.contents) + Optional(present, b)
  {
    if present {
      body.Write(EncodeBytes(b));
    }
  }

  method UnpackVariableHeader(r: Reader) returns (res: Result<VariableHeader>)
    modifies r
    ensures r.Advanced()
    ensures res == ParseVariableHeader(old(r.Rest())).Outcome()
    ensures res.Success? ==> r.Rest() == ParseVariableHeader(old(r.Rest())).rest
  {
    hide ParseBytes, ParseUint16, DecodeFlags;
    var protocolName :- DecodeBytes(r);
    var version :- DecodeByte(r);
    var connectFlags :- DecodeByte(r);
    var keepAlive :- DecodeUint16(r);
    res := Success(VariableHeader(protocolName, version, DecodeFlags(connectFlags), keepAlive));
  }

  method UnpackOptional(r: Reader, present: bool, before: bytes) returns (res: Result<bytes>)
    modifies r
    ensures r.Advanced()
    ensures res == ParseOptional(present, before, old(r.Rest())).Outcome()
    ensures res.Success? ==> r.Rest() == ParseOptional(present, before, old(r.Rest())).rest
  {
    if !present {
      return Success(before);
    }
    res := DecodeBytes(r);
  }
}
