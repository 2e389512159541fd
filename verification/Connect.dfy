/** What CONNECT has in common in both protocol versions: the flag byte and the variable header
    up to the keep-alive. */
module Connect {
  import opened Bits
  import opened Wire
  import opened Header

  /** `clean` is Clean Session in version 3.1.1 and Clean Start in version 5. */
  datatype Flags = Flags(
    hasUsername: bool,
    hasPassword: bool,
    willRetain: bool,
    willQos: byte,
    willFlag: bool,
    clean: bool,
    reserved: bool)
  {
    /** `getConnectFlags`: the reserved bit is not written. */
    function Encode(): byte {
      FlagBits(this, willQos as bv8 & 0x03) as int
    }
  }

  const NO_FLAGS := Flags(false, false, false, 0, false, false, false)

  function DecodeFlags(flagByte: byte): Flags {
    FlagsOfBits(flagByte as bv8)
  }

  /** The fields of the flag byte do not overlap. */
  lemma DisjointBits(user: bv8, password: bv8, retain: bv8, qos: bv8, will: bv8, clean: bv8)
    requires (user == 0 || user == 0x80) && (password == 0 || password == 0x40)
    requires (retain == 0 || retain == 0x20) && qos < 4
    requires (will == 0 || will == 0x04) && (clean == 0 || clean == 0x02)
    ensures var b := user | password | retain | (qos << 3) | will | clean;
      && b & 0x80 == user && b & 0x40 == password && b & 0x20 == retain && (b & 0x18) >> 3 == qos
      && b & 0x04 == will && b & 0x02 == clean && b & 0x01 == 0
  {
  }

  /** The flag byte of these fields, as bits. */
  function FlagBits(f: Flags, willQos: bv8): bv8 {
    (if f.hasUsername then 0x80 else 0)
    | (if f.hasPassword then 0x40 else 0)
    | (if f.willRetain then 0x20 else 0)
    | (willQos << 3)
    | (if f.willFlag then 0x04 else 0)
    | (if f.clean then 0x02 else 0)
  }

  function FlagsOfBits(b: bv8): Flags {
    Flags(b & 0x80 == 0x80, b & 0x40 == 0x40, b & 0x20 == 0x20, ((b & 0x18) >> 3) as int,
          b & 0x04 == 0x04, b & 0x02 == 0x02, b & 0x01 == 0x01)
  }

  lemma FlagBitsRoundTrip(f: Flags, willQos: bv8)
    requires willQos < 4
    ensures FlagsOfBits(FlagBits(f, willQos)) == f.(reserved := false, willQos := willQos as int)
  {
    DisjointBits(
      if f.hasUsername then 0x80 else 0, if f.hasPassword then 0x40 else 0,
      if f.willRetain then 0x20 else 0, willQos,
      if f.willFlag then 0x04 else 0, if f.clean then 0x02 else 0);
  }

  /** The flags come back exactly when the reserved bit is clear and the will QoS has two bits. */
  lemma FlagsRoundTrip(f: Flags)
    ensures DecodeFlags(f.Encode()) == f <==> !f.reserved && f.willQos < 4
    ensures f.willQos < 4 ==> DecodeFlags(f.Encode()) == f.(reserved := false)
  {
    WillQosBits(f.willQos);
    FlagBitsRoundTrip(f, f.willQos as bv8 & 0x03);
  }

  /** The flag byte of MQTT 3.1.1 section 3.1.2.3 as a number, from the user name flag down. */
  function FlagsNumber(f: Flags, willQos: int): int {
    (if f.hasUsername then 128 else 0) + (if f.hasPassword then 64 else 0) + (if f.willRetain then 32 else 0)
    + 8 * willQos + (if f.willFlag then 4 else 0) + (if f.clean then 2 else 0)
  }

  lemma FlagBitsNumber(f: Flags, q: bv8)
    requires q < 4
    ensures FlagBits(f, q) as int == FlagsNumber(f, q as int)
  {
    var u: bv8, p: bv8 := if f.hasUsername then 0x80 else 0, if f.hasPassword then 0x40 else 0;
    var r: bv8, w: bv8 := if f.willRetain then 0x20 else 0, if f.willFlag then 0x04 else 0;
    var c: bv8 := if f.clean then 0x02 else 0;
    Shifts(q);
    DisjointSum(u, p);
    DisjointSum(u | p, r);
    DisjointSum(u | p | r, q << 3);
    DisjointSum(u | p | r | (q << 3), w);
    DisjointSum(u | p | r | (q << 3) | w, c);
  }

  lemma FlagsLayout(f: Flags)
    requires f.willQos < 4
    ensures f.Encode() == FlagsNumber(f, f.willQos)
  {
    WillQosBits(f.willQos);
    FlagBitsNumber(f, f.willQos as bv8 & 0x03);
  }

  lemma SameFlagBits(b: bv8)
    ensures FlagBits(FlagsOfBits(b), (b & 0x18) >> 3) | (b & 0x01) == b
    ensures FlagBits(FlagsOfBits(b), (b & 0x18) >> 3) & (b & 0x01) == 0
    ensures (b & 0x18) >> 3 < 4 && b & 0x01 < 2 && (b & 0x01 == 0x01 || b & 0x01 == 0)
  {
  }

  lemma FlagDigits(x: int, u: int, p: int, r: int, q: int, w: int, c: int, z: int)
    requires x == 128 * u + 64 * p + 32 * r + 8 * q + 4 * w + 2 * c + z
    requires 0 <= u <= 1 && 0 <= p <= 1 && 0 <= r <= 1 && 0 <= q <= 3 && 0 <= w <= 1 && 0 <= c <= 1 && 0 <= z <= 1
    ensures x / 128 == u && x / 64 % 2 == p && x / 32 % 2 == r && x / 8 % 4 == q
    ensures x / 4 % 2 == w && x / 2 % 2 == c && x % 2 == z
  {
    Quotient(x, 128, u, 64 * p + 32 * r + 8 * q + 4 * w + 2 * c + z);
    Digit(x, 64, 2, u, p, 32 * r + 8 * q + 4 * w + 2 * c + z);
    Digit(x, 32, 2, 2 * u + p, r, 8 * q + 4 * w + 2 * c + z);
    Digit(x, 8, 4, 4 * u + 2 * p + r, q, 4 * w + 2 * c + z);
    Digit(x, 4, 2, 16 * u + 8 * p + 4 * r + q, w, 2 * c + z);
    Digit(x, 2, 2, 32 * u + 16 * p + 8 * r + 2 * q + w, c, z);
    Quotient(x, 2, 64 * u + 32 * p + 16 * r + 4 * q + 2 * w + c, z);
  }

  lemma ReservedBit(b: bv8)
    ensures var f := FlagsOfBits(b);
      && (b & 0x01) as int == (if f.reserved then 1 else 0)
      && f.willQos == ((b & 0x18) >> 3) as int
  {
    assert b & 0x01 == 0x01 || b & 0x01 == 0;
  }

  lemma FlagsSum(flagByte: byte)
    ensures
      var f := DecodeFlags(flagByte);
      flagByte == FlagsNumber(f, f.willQos) + (if f.reserved then 1 else 0) && f.willQos < 4
  {
    hide FlagBits, FlagsOfBits, FlagsNumber;
    var b := flagByte as bv8;
    ByteBits(flagByte);
    SameFlagBits(b);
    ReservedBit(b);
    DecodedWillQos(flagByte);
    FlagBitsNumber(FlagsOfBits(b), (b & 0x18) >> 3);
    DisjointSum(FlagBits(FlagsOfBits(b), (b & 0x18) >> 3), b & 0x01);
  }

  /** The flags are read from those places. */
  lemma FlagsRead(flagByte: byte)
    ensures
      var f := DecodeFlags(flagByte);
      && f.hasUsername == (flagByte / 128 == 1) && f.hasPassword == (flagByte / 64 % 2 == 1)
      && f.willRetain == (flagByte / 32 % 2 == 1) && f.willQos == flagByte / 8 % 4
      && f.willFlag == (flagByte / 4 % 2 == 1) && f.clean == (flagByte / 2 % 2 == 1)
      && f.reserved == (flagByte % 2 == 1)
  {
    hide DecodeFlags;
    var f := DecodeFlags(flagByte);
    FlagsSum(flagByte);
    FlagDigits(flagByte, if f.hasUsername then 1 else 0, if f.hasPassword then 1 else 0, if f.willRetain then 1 else 0,
           f.willQos, if f.willFlag then 1 else 0, if f.clean then 1 else 0, if f.reserved then 1 else 0);
  }

  lemma LowBits(b: bv8)
    ensures b & 0x03 < 4 && (b & 0x03 == b <==> b < 4)
  {
  }

  lemma WillQosBits(q: byte)
    ensures q as bv8 & 0x03 < 4
    ensures (q as bv8 & 0x03) as int == q <==> q < 4
  {
    LowBits(q as bv8);
    ByteBits(q);
  }

  lemma DecodedWillQos(flagByte: byte)
    ensures DecodeFlags(flagByte).willQos < 4
  {
    var b := flagByte as bv8;
    assert (b & 0x18) >> 3 < 4;
  }

  datatype VariableHeader = VariableHeader(
    protocolName: bytes,
    protocolLevel: byte,
    flags: Flags,
    keepAlive: uint16)
  {
    function Encode(): bytes {
      EncodeBytes(protocolName) + ([protocolLevel, flags.Encode()] + EncodeUint16(keepAlive))
    }

    function WithoutReserved(): VariableHeader {
      this.(flags := flags.(reserved := false))
    }

    /** What every decoded variable header satisfies. */
    predicate Fits() {
      |protocolName| <= MAX_STRING && flags.willQos < 4
    }
  }

  const NO_VARIABLE_HEADER := VariableHeader([], 0, NO_FLAGS, 0)

  function ParseVariableHeader(s: bytes): (r: Parsed<VariableHeader>)
    ensures r.Ok? ==> r.value.Fits() && |s| == |r.value.Encode()| + |r.rest|
    ensures r.Err? ==> !r.error.Refused?
  {
    var (name, s1) :- ParseBytes(s);
    var (level, s2) :- ParseByte(s1);
    var (flagByte, s3) :- ParseByte(s2);
    var (keepAlive, s4) :- ParseUint16(s3);
    DecodedWillQos(flagByte);
    Ok(VariableHeader(name, level, DecodeFlags(flagByte), keepAlive), s4)
  }

  lemma VariableHeaderRoundTrip(v: VariableHeader, t: bytes)
    requires v.Fits()
    ensures ParseVariableHeader(v.Encode() + t) == Ok(v.WithoutReserved(), t)
  {
    var flagByte: byte := v.flags.Encode();
    assert DecodeFlags(flagByte) == v.WithoutReserved().flags by {
      FlagsRoundTrip(v.flags);
    }
    VariableHeaderParts(v.protocolName, v.protocolLevel, flagByte, v.keepAlive, t);
    assert v.Encode() + t ==
      EncodeBytes(v.protocolName) + ([v.protocolLevel, flagByte] + EncodeUint16(v.keepAlive)) + t;
  }

  lemma VariableHeaderParts(name: bytes, level: byte, flagByte: byte, keepAlive: uint16, t: bytes)
    requires |name| <= MAX_STRING
    ensures ParseVariableHeader(EncodeBytes(name) + ([level, flagByte] + EncodeUint16(keepAlive)) + t)
         == Ok(VariableHeader(name, level, DecodeFlags(flagByte), keepAlive), t)
  {
    hide EncodeBytes, ParseBytes, EncodeUint16, ParseUint16, DecodeFlags;
    var t3 := EncodeUint16(keepAlive) + t;
    var t2 := [flagByte] + t3;
    var t1 := [level] + t2;
    assert EncodeBytes(name) + ([level, flagByte] + EncodeUint16(keepAlive)) + t == EncodeBytes(name) + t1;
    BytesRoundTrip(name, t1);
    assert ParseByte(t1) == Ok(level, t2) && ParseByte(t2) == Ok(flagByte, t3);
    Uint16RoundTrip(keepAlive, t);
  }

  // ----- fields present only when a flag is set -----

  function Optional(present: bool, b: bytes): bytes {
    if present then EncodeBytes(b) else []
  }

  predicate OptionalFits(present: bool, b: bytes) {
    if present then |b| <= MAX_STRING else b == []
  }

  /** An absent field keeps its old value. */
  function ParseOptional(present: bool, before: bytes, s: bytes): (r: Parsed<bytes>)
    ensures r.Ok? && before == [] ==>
      OptionalFits(present, r.value) && |s| == |Optional(present, r.value)| + |r.rest|
    ensures r.Err? ==> !r.error.Refused?
  {
    if present then ParseBytes(s) else Ok(before, s)
  }

  lemma OptionalRoundTrip(present: bool, b: bytes, t: bytes)
    requires OptionalFits(present, b)
    ensures ParseOptional(present, [], Optional(present, b) + t) == Ok(b, t)
  {
    if present {
      BytesRoundTrip(b, t);
    } else {
      assert Optional(present, b) + t == t;
    }
  }
}
