# MQTT proxy: wire format, connections, shutdown and certificates

A Dafny model of the parts of the proxy where many small rules have to agree.

* **The wire format.** `Wire`, `Bits`, `Varint` and `Header` hold the primitive formats of MQTT 3.1.1 (sections
  1.5.3 and 2.2) and MQTT 5.0 (sections 1.5 and 2.1); `V311` and `V5` the packets of both versions as
  values, with what is written and what is parsed; `Streams`, `ConnectStreams`, `V311Packets` and
  `V5Packets` the readers, buffers and packet structs with their `Write` and `Unpack` methods, each proved
  against those functions. `Codec` adds the version sniffing with its tee and replay, and streams of
  packets. Round trips are stated with their exact condition: a packet survives the wire if and only if it
  is well formed. `WireLayout` fixes the bytes without reference to encoder or decoder and `WireExamples`
  gives frames byte by byte; `WireReading` says what becomes of frames that are cut off or too long.
* **One connection.** `Session` is the serve loop with its handlers as a machine over events: a packet
  arrives, a publish completes in any order, the socket is closed, the input ends, the loop returns.
  `SessionProofs`, `SessionAccounting`, `SessionAsync` and `SessionStreams` prove what holds in all runs.
  `SessionHistory` tells who is logged in, what is published and when the connection is closed from the
  packets handled alone, and `SessionAnswers` which replies are due. `Connection` has the code, which makes
  exactly the machine's steps.
* **The server.** `Server` interleaves any number of `Serve`, `Shutdown` and `Close` calls and connection
  goroutines, with the mutex explicit and the shutdown flag outside it. `ServerProofs` and `ServerConns`
  prove shutdown safety and connection tracking by rely and guarantee, `ServerSweep` what the sweep of idle
  connections closes, `ServerErrors` why `Serve` returns, `ServerReturns` when `Shutdown` returns and what is
  left then; `ServerRuns` has the runs that serve as examples. `ServerTracking` has the locked sections as
  methods on the server's fields and `ServerLoops` the loops of `Serve` and `Shutdown` around them, each a
  run of the machine with whatever other calls do in between.
* **Certificates.** `Pems` loads, validates and sums up PEM blocks, `Watch` sends on what changed,
  `Revocation` indexes and checks serial numbers. Together: the lists a client is checked against are those
  of the last successful load.
* **The AMQP channel.** `ChannelProvider` is the double-checked creation under every interleaving.

Where the code does not meet what one would expect, the exact condition is proved:

* `EncodeBytes` keeps only 16 bits of the length, so strings come back if and only if they have at most
  65535 bytes (`Wire.BytesRoundTrip`).
* PINGREQ, PINGRESP and DISCONNECT are written under their stored length but, in the short form, without a
  body. One that arrived with a body and is written again cannot be read back (`V311.Normalisation`,
  `V5.Normalisation`).
* A handler told to ignore CONNECT leaves connections open and unauthenticated
  (`SessionProofs.AuthenticatedIffConnectHandled`). The command line does not offer CONNECT for that
  option, the handler package does.
* `Shutdown` can return while a connection is still tracked: if and only if, as its last sweep unlocks, some
  `Serve` call has accepted a connection and not registered it yet (`ServerReturns.EmptyAtReturn`, with a
  run in `ServerReturns.ShutdownMayLeaveConnections`).
* The sweep can close a connection that is busy: it goes by the word it loaded, and the word at the close
  differs if and only if the connection has stored another one since (`ServerSweep.SweptByWordLoaded`, with
  a run in `ServerSweep.BusyConnectionSwept`).
* The checksum does not see bytes that move between certificate and key (`Pems.BoundariesAreNotHashed`).
  When a change goes unnoticed, and when what is served is current in every part, is stated exactly in
  `Revocation.UnnoticedExactly` and `Revocation.StoredIsCurrent`.

The doc comment of each member says what it means. Integers are unbounded in Dafny: 16-bit and 32-bit
truncation and the 64-bit state word are written out where the code relies on them.

## Model

| member | source | states |
|---|---|---|
| Wire.Uint16RoundTrip | pkg/mqtt/codec/proto/encoding.go:50-63 | decoding an encoded 16-bit integer gives it back and leaves whatever follows |
| Wire.BytesRoundTrip | pkg/mqtt/codec/proto/encoding.go:31-48 | a length-prefixed string comes back, with the input behind it untouched, if and only if it has at most 65535 bytes |
| Wire.BytesSplit | pkg/mqtt/codec/proto/encoding.go:31-48 | the bytes a string decoder consumed are the encoding of what it returned |
| Wire.BytesExtend | pkg/mqtt/codec/proto/encoding.go:31-42 | more input behind a string changes neither the string nor what is left |
| Streams.Reader.ReadFull | pkg/mqtt/codec/proto/encoding.go:10-17 | a read of n bytes takes them in order from the replay buffer and then the source, an input that is too short is EOF or UnexpectedEOF and consumed, and no byte is lost or reordered |
| Streams.Reader.Rewind | pkg/mqtt/codec/packets.go:15-24 | replaying what was read through the tee restores the stream exactly |
| Streams.DecodeBytes | pkg/mqtt/codec/proto/encoding.go:31-42 | the decoder on a stream returns what the specification parses and leaves the stream behind it |
| Streams.DecodeUint16 | pkg/mqtt/codec/proto/encoding.go:50-57 | the decoder on a stream returns the big-endian integer the specification parses and leaves the stream behind it |
| Streams.DecodeByte | pkg/mqtt/codec/proto/encoding.go:10-17 | the decoder on a stream returns its next byte, or EOF, and leaves the stream behind it |
| Streams.ByteReader.ReadByte | pkg/mqtt/codec/proto/encoding.go:93-106 | one byte from the stream; the counter goes up by one exactly on success |
| Streams.DecodeUvarint | pkg/mqtt/codec/proto/encoding.go:65-75 | the 64-bit reading loop with its overflow rule and the four-byte check compute the base-128 value, or the error the input calls for |
| Streams.WriteUvarint | pkg/mqtt/codec/proto/encoding.go:77-87 | the loop appends the base-128 digits of its argument and returns how many |
| Varint.UvarintRoundTrip | pkg/mqtt/codec/proto/encoding.go:65-87 | every 32-bit value up to 268435455 comes back with the input behind it untouched; every larger one is rejected |
| Varint.UvarintLength | pkg/mqtt/codec/proto/encoding.go:77-87 | the encoding takes k bytes exactly when the value lies in the k-th power-of-128 band |
| Varint.UvarintAccepted | pkg/mqtt/codec/proto/encoding.go:65-75 | an accepted encoding, minimal or not, has a value of at most 268435455 and is no shorter than the canonical one |
| Varint.UvarintMinimal | pkg/mqtt/codec/proto/encoding.go:65-87 | an accepted encoding is the canonical one exactly when it has one byte or does not end in a zero digit |
| Varint.UvarintPrefix | pkg/mqtt/codec/proto/encoding.go:65-75 | the decoder looks at nothing behind the bytes it accepts |
| Varint.UvarintExtend | pkg/mqtt/codec/proto/encoding.go:65-75 | more input behind an accepted varint changes neither the value nor what is left |
| Varint.UvarintMonotone | pkg/mqtt/codec/proto/encoding.go:77-87 | a larger value never has a shorter encoding |
| Varint.UvarintDigits | pkg/mqtt/codec/proto/encoding.go:77-87 | the bytes written are the base-128 digits of the value, all but the last with the top bit set |
| Varint.MinimalDigits | pkg/mqtt/codec/proto/encoding.go:65-87 | digit strings without a redundant zero are exactly the canonical encodings |
| Header.HeaderRoundTrip | pkg/mqtt/codec/proto/fixedheader.go:23-73 | a header comes back if and only if its type is below 16, its QoS below 4 and its length in range |
| Header.FirstByteRoundTrip | pkg/mqtt/codec/proto/fixedheader.go:33-49 | the first byte gives all flags back if and only if type and QoS fit their bits |
| Header.DecodedPackable | pkg/mqtt/codec/proto/fixedheader.go:42-49 | what was decoded from a first byte always fits it again |
| Header.ValidateNeverFails | pkg/mqtt/codec/proto/fixedheader.go:23-49 | validation cannot fail after a successful Unpack |
| Header.HeaderNoLonger | pkg/mqtt/codec/proto/fixedheader.go:42-56 | an accepted header is written in no more bytes than it was read from |
| Header.HeaderExtend | pkg/mqtt/codec/proto/fixedheader.go:42-49 | more input behind an accepted header changes neither the header nor what is left |
| Header.FixedHeader.Pack | pkg/mqtt/codec/proto/fixedheader.go:51-56 | the buffer holds the first byte and the varint length that the round trip above is about |
| Header.UnpackHeader | pkg/mqtt/codec/proto/fixedheader.go:33-49 | the fields are taken from the bits of the first byte and the varint behind it |
| Header.ReadHeader | pkg/mqtt/codec/v311/packets.go:11-29 | one byte, the length, validation: the header every packet reader starts with, errors included |
| Header.FirstByteLayout | pkg/mqtt/codec/proto/fixedheader.go:33-41 | the first byte is 16 times the type, plus 8 for the duplicate flag, plus twice the QoS, plus 1 for the retain flag |
| Header.FirstByteRead | pkg/mqtt/codec/proto/fixedheader.go:42-49 | whatever the first byte, the fields are read from those places |
| Connect.FlagsRoundTrip | pkg/mqtt/codec/v5/connect.go:91-168 | the connect flags come back if and only if the reserved bit is clear and the will QoS below 4; otherwise only the reserved bit is lost |
| Connect.VariableHeaderRoundTrip | pkg/mqtt/codec/v311/connect.go:49-108 | name, level, flags and keep-alive come back but for the reserved bit |
| Connect.OptionalRoundTrip | pkg/mqtt/codec/v311/connect.go:109-131 | a field behind a flag comes back when present and stays empty when absent |
| Connect.FlagsLayout | pkg/mqtt/codec/v311/connect.go:132-152 | the flag byte is 128 for the user name, 64 for the password, 32 for will retain, 8 times the will QoS, 4 for the will and 2 for the clean session |
| Connect.FlagsRead | pkg/mqtt/codec/v311/connect.go:84-108 | whatever the flag byte, the flags are read from those places, the lowest bit being the reserved one |
| ConnectStreams.UnpackVariableHeader | pkg/mqtt/codec/v311/connect.go:76-108 | the sequential reads return the parsed variable header and leave the stream behind it |
| ConnectStreams.UnpackOptional | pkg/mqtt/codec/v311/connect.go:109-131 | a field is read only when its flag is set |
| V311.FiltersExact | pkg/mqtt/codec/v311/unsubscribe.go:33-62 | the loop accepts exactly the encodings of filter lists, whole: success consumes the frame and yields the list, and every list of filters of up to 65535 bytes is accepted |
| V311.SubscriptionsExact | pkg/mqtt/codec/v311/subscribe.go:42-79 | the loop accepts exactly the encodings of lists of filter and QoS pairs, whole, in both directions, for filters of up to 65535 bytes |
| V311.FiltersConsumed | pkg/mqtt/codec/v311/unsubscribe.go:47-62 | started with the length of its input, the loop ends with nothing unread |
| V311.SubscriptionsConsumed | pkg/mqtt/codec/v311/subscribe.go:57-79 | started with the length of its input, the loop ends with nothing unread |
| V311.ConnectRoundTrip | pkg/mqtt/codec/v311/connect.go:49-152 | every CONNECT with fields of up to 65535 bytes comes back, for all flag combinations, the reserved bit cleared |
| V311.PublishRoundTrip | pkg/mqtt/codec/v311/publish.go:34-71 | topic, optional identifier and message come back, the message by subtracting what was read from the length |
| V311.SubscribeRoundTrip | pkg/mqtt/codec/v311/subscribe.go:42-79 | identifier and subscriptions come back, and nothing is left |
| V311.UnsubscribeRoundTrip | pkg/mqtt/codec/v311/unsubscribe.go:33-62 | identifier and filters come back, and nothing is left |
| V311.SubackRoundTrip | pkg/mqtt/codec/v311/suback.go:33-59 | identifier and return codes come back, the codes by the length alone |
| V311.BodyRoundTrip | pkg/mqtt/codec/v311/packets.go:81-114 | Unpack inverts Write for every well-formed packet of the eleven shapes behind the fourteen types |
| V311.BodyAccepted | pkg/mqtt/codec/v311/packets.go:11-44 | whatever Unpack accepts has the shape of a written packet and is no longer than its frame when written |
| V311.PacketAccepted | pkg/mqtt/codec/v311/packets.go:11-44 | a packet that was read consumed its header and exactly the announced number of bytes |
| V311.FrameRoundTrip | pkg/mqtt/codec/v311/packets.go:11-44 | ReadPacket of Write, with any bytes behind, gives the packet and leaves those bytes, if and only if the packet is well formed |
| V311.Normalisation | pkg/mqtt/codec/v311/packets.go:11-44 | writing an accepted packet takes no more bytes than were read; reading that back gives the same packet but for the length and the reserved bit, if and only if it is not an empty packet with a stored length |
| V311.StalePing | pkg/mqtt/codec/v311/pingreq.go:29-37 | a PINGREQ with a two-byte body is read, is stale, and is written as a header announcing two bytes that do not follow |
| V311Packets.ConnectPacket.Write | pkg/mqtt/codec/v311/connect.go:49-74 | the bytes appended are the frame of the old packet, whose length field is then the one written |
| V311Packets.ConnectPacket.Unpack | pkg/mqtt/codec/v311/connect.go:76-131 | the fields assigned are the parsed ones and the reader is left where the parser stopped; the error is the parser's |
| V311Packets.ConnackPacket.Unpack | pkg/mqtt/codec/v311/connack.go:41-49 | assigns the parsed fields, leaves the reader behind them and fails as the parser does |
| V311Packets.ConnackPacket.Write | pkg/mqtt/codec/v311/connack.go:32-56 | appends the frame of the old packet and stores the length written |
| V311Packets.PublishPacket.Unpack | pkg/mqtt/codec/v311/publish.go:50-71 | assigns the parsed fields, leaves the reader behind them and fails as the parser does; the counting reader's counts add up to the parser's subtraction, with a negative payload refused |
| V311Packets.PublishPacket.Write | pkg/mqtt/codec/v311/publish.go:34-48 | appends the frame of the old packet and stores the length written |
| V311Packets.SubscribePacket.Unpack | pkg/mqtt/codec/v311/subscribe.go:57-79 | the counter equals the unread bytes of the frame in every round, the list built is the parsed one, and a frame of the announced length is consumed entirely |
| V311Packets.SubscribePacket.Write | pkg/mqtt/codec/v311/subscribe.go:42-55 | the loop appends the encoding of the whole list |
| V311Packets.UnsubscribePacket.Unpack | pkg/mqtt/codec/v311/unsubscribe.go:47-62 | the counter equals the unread bytes of the frame in every round, the list built is the parsed one, and a frame of the announced length is consumed entirely |
| V311Packets.UnsubscribePacket.Write | pkg/mqtt/codec/v311/unsubscribe.go:33-45 | the loop appends the encoding of the whole list |
| V311Packets.SubackPacket.Unpack | pkg/mqtt/codec/v311/suback.go:46-59 | return codes are read only when the length leaves some |
| V311Packets.SubackPacket.Write | pkg/mqtt/codec/v311/suback.go:33-44 | appends the frame of the old packet and stores the length written |
| V311Packets.AckPacket.Unpack | pkg/mqtt/codec/v311/puback.go:39-42 | assigns the parsed fields, leaves the reader behind them and fails as the parser does |
| V311Packets.AckPacket.Write | pkg/mqtt/codec/v311/puback.go:31-37 | appends the frame of the old packet and stores the length written |
| V311Packets.EmptyPacket.Write | pkg/mqtt/codec/v311/disconnect.go:29-33 | the header alone, under the stored length |
| V311Packets.ReadPacket | pkg/mqtt/codec/v311/packets.go:11-44 | on any stream: the packet and rest, or the error, of the specification; the unpacker sees exactly the announced bytes |
| V311Packets.UnpackFrame | pkg/mqtt/codec/v311/packets.go:81-114 | the type in the header picks the packet to unpack, with all fields zero before |
| V5.PropertiesRoundTrip | pkg/mqtt/codec/v5/properties.go:15-45 | a property block of up to 268435455 bytes comes back with what follows untouched |
| V5.ConnectRoundTrip | pkg/mqtt/codec/v5/connect.go:52-168 | every CONNECT comes back, with both property blocks, for all flag combinations, the reserved bit cleared |
| V5.ConnackRoundTrip | pkg/mqtt/codec/v5/connack.go:34-69 | flags, return code and properties come back |
| V5.PublishRoundTrip | pkg/mqtt/codec/v5/publish.go:35-77 | topic, optional identifier, properties and message come back |
| V5.AckRoundTrip | pkg/mqtt/codec/v5/puback.go:34-75 | short and long form come back; the length tells them apart |
| V5.DisconnectRoundTrip | pkg/mqtt/codec/v5/disconnect.go:33-67 | both forms come back unless the short one carries a stored length |
| V5.BodyRoundTrip | pkg/mqtt/codec/v5/packets.go:72-97 | Unpack inverts Write for every well-formed packet |
| V5.BodyAccepted | pkg/mqtt/codec/v5/packets.go:11-44 | whatever Unpack accepts has the shape of a written packet and is no longer than its frame when written |
| V5.PacketAccepted | pkg/mqtt/codec/v5/packets.go:11-44 | a packet that was read consumed its header and exactly the announced number of bytes |
| V5.FrameRoundTrip | pkg/mqtt/codec/v5/packets.go:11-44 | ReadPacket of Write, with any bytes behind, gives the packet and leaves those bytes, if and only if the packet is well formed |
| V5.Normalisation | pkg/mqtt/codec/v5/packets.go:11-44 | writing an accepted packet takes no more bytes than were read, non-minimal varints, trailing bytes and long acks included; reading that back gives the same packet but for the length and the reserved bit, if and only if it is not one written under a stale stored length |
| V5.StalePing | pkg/mqtt/codec/v5/pingreq.go:29-37 | a PINGREQ with a two-byte body is read, is stale, and is written as a header announcing two bytes that do not follow |
| V5.PublishAccounting | pkg/mqtt/codec/v5/publish.go:52-77 | the remaining length is topic with prefix, optional identifier, the property-length bytes actually read, properties and message, and the frame is these parts in this order |
| V5.PayloadNeverNegative | pkg/mqtt/codec/v5/publish.go:67-75 | on a frame of the announced length the payload subtraction is never negative |
| V5.ShortFormsRejected | pkg/mqtt/codec/v5/puback.go:55-75 | acknowledgements of length 3 and DISCONNECT of length 1 are never accepted |
| V5Packets.UnpackProperties | pkg/mqtt/codec/v5/properties.go:15-33 | the length and then exactly so many bytes |
| V5Packets.WriteProperties | pkg/mqtt/codec/v5/properties.go:40-45 | the length of the raw data and the data are appended |
| V5Packets.ConnectPacket.Unpack | pkg/mqtt/codec/v5/connect.go:83-147 | the fields assigned are the parsed ones and the reader is left where the parser stopped; the error is the parser's |
| V5Packets.ConnectPacket.Write | pkg/mqtt/codec/v5/connect.go:52-81 | the bytes appended are the frame of the old packet, whose length field is then the one written |
| V5Packets.ConnackPacket.Unpack | pkg/mqtt/codec/v5/connack.go:47-62 | assigns the parsed fields, leaves the reader behind them and fails as the parser does |
| V5Packets.ConnackPacket.Write | pkg/mqtt/codec/v5/connack.go:34-45 | appends the frame of the old packet and stores the length written |
| V5Packets.PublishPacket.Unpack | pkg/mqtt/codec/v5/publish.go:52-77 | assigns the parsed fields, leaves the reader behind them and fails as the parser does; the counting reader's counts add up to the parser's subtraction |
| V5Packets.PublishPacket.Write | pkg/mqtt/codec/v5/publish.go:35-50 | appends the frame of the old packet and stores the length written |
| V5Packets.AckPacket.Unpack | pkg/mqtt/codec/v5/puback.go:55-75 | the short form exactly when the stored length is 2 |
| V5Packets.AckPacket.Write | pkg/mqtt/codec/v5/puback.go:34-53 | reason code and properties are left out together, when both are empty |
| V5Packets.DisconnectPacket.Unpack | pkg/mqtt/codec/v5/disconnect.go:51-67 | the short form exactly when the stored length is 0 |
| V5Packets.DisconnectPacket.Write | pkg/mqtt/codec/v5/disconnect.go:33-49 | the short form goes out under the stored length, the long one under its own |
| V5Packets.EmptyPacket.Write | pkg/mqtt/codec/v5/pingreq.go:29-33 | the header alone, under the stored length |
| V5Packets.ReadPacket | pkg/mqtt/codec/v5/packets.go:11-44 | on any stream: the packet and rest, or the error, of the specification |
| V5Packets.UnpackFrame | pkg/mqtt/codec/v5/packets.go:72-97 | the type in the header picks the packet to unpack; SUBSCRIBE and the other types v5 lacks are refused |
| Codec.PeekTransparent | pkg/mqtt/codec/packets.go:13-67 | without a negotiated version a packet is read if and only if it is a CONNECT that the reader of its own protocol level reads from the same bytes, and then that level is the version |
| Codec.PeekInsideFrame | pkg/mqtt/codec/packets.go:36-67 | the peeked bytes lie inside the CONNECT frame |
| Codec.ConnectSniffed | pkg/mqtt/codec/packets.go:36-67 | a CONNECT read as either version is sniffed as its own protocol level |
| Codec.SniffedIsConnect | pkg/mqtt/codec/packets.go:52-54 | what a sniffed version reads is a CONNECT |
| Codec.ReadConnectVersion | pkg/mqtt/codec/packets.go:36-67 | header, type check, protocol name and level, with their errors |
| Codec.ReadPacket | pkg/mqtt/codec/packets.go:13-34 | peek through the tee, rewind, read by the version found: packet and rest, or the error, as specified, with the replay buffer empty; which byte selects which reader is `WireLayout.LevelSelects` |
| Codec.PacketExtend | pkg/mqtt/codec/packets.go:13-34 | what a reader of any version, or the sniffing one, makes of some bytes it makes of them whatever follows |
| Codec.FrameRoundTrip | pkg/mqtt/codec/packets.go:13-34 | a packet of either version survives the wire if and only if it is well formed |
| Codec.Normalisation | pkg/mqtt/codec/packets.go:13-34 | writing an accepted packet of either version takes no more bytes than were read, and reading that back gives its normal form if and only if it is not stale |
| Codec.StreamRoundTrip | pkg/mqtt/codec/packets.go:13-34 | reading back the concatenated frames of any well-formed packets of one version, with any bytes behind, yields them in order and leaves those bytes, from a negotiated version or from scratch |
| WireLayout.LevelSelects | pkg/mqtt/codec/packets.go:13-67 | on a new connection the byte behind the protocol name of a CONNECT decides: 4 is read as version 3.1.1, 5 as version 5, and any other is refused with return code 1 |
| WireLayout.OnlyConnectFirst | pkg/mqtt/codec/packets.go:46-54 | on a new connection anything but a CONNECT is an error and is not read |
| WireLayout.StoredSelects | pkg/mqtt/codec/packets.go:13-34 | later the stored version decides, whatever the bytes say |
| WireLayout.LengthLayout | pkg/mqtt/codec/proto/encoding.go:77-87 | a length is written in one to four bytes of seven bits, the lowest first, with 128 added to all but the last |
| WireLayout.HeaderLayout | pkg/mqtt/codec/proto/fixedheader.go:33-56 | the fixed header byte by byte |
| WireLayout.Frame311 | pkg/mqtt/codec/v311/packets.go:11-114 | every well-formed version 3.1.1 packet is on the wire exactly as laid out field by field, with numbers in two bytes, the high one first, and is read back from there |
| WireLayout.Frame5 | pkg/mqtt/codec/v5/packets.go:11-97 | every well-formed version 5 packet is on the wire exactly as laid out field by field, and is read back from there |
| WireReading.CutOff | pkg/mqtt/codec/v311/packets.go:11-44 | a frame that is cut off anywhere is never taken for a packet; the end of the input is EOF exactly in front of the first byte, the length or the body, and UnexpectedEOF elsewhere |
| WireReading.MoreThanNeeded | pkg/mqtt/codec/v311/packets.go:11-44 | a frame may announce more than its CONNECT, CONNACK, acknowledgement or empty packet needs: the same packet is read, the surplus is skipped, and the next packet begins behind it |
| WireReading.UnknownTypes | pkg/mqtt/codec/v5/packets.go:72-97 | types 0 and 15 are refused by both readers, SUBSCRIBE, UNSUBSCRIBE and their answers by version 5 as well |
| WireReading.ConnackFlags | pkg/mqtt/codec/v311/connack.go:41-49 | session present is the lowest bit of the first byte, whatever the others are |
| WireExamples.PlainConnect311 | pkg/mqtt/codec/v311/connect_test.go:22-60 | a literal CONNECT of version 3.1.1 and the packet it is on a new connection |
| WireExamples.WillConnect311 | pkg/mqtt/codec/v311/connect.go:76-131 | one with a will of QoS 2 that is retained and a keep-alive of 258 seconds |
| WireExamples.LoginConnect311 | pkg/mqtt/codec/v311/connect.go:76-131 | one with user name and password |
| WireExamples.PlainConnect5 | pkg/mqtt/codec/v5/connect_test.go:21-60 | a literal CONNECT of version 5 and the packet it is on a new connection |
| WireExamples.WillConnect5 | pkg/mqtt/codec/v5/connect.go:83-147 | one with a will and properties of its own and of the connection |
| WireExamples.Publish311 | pkg/mqtt/codec/v311/publish_test.go:22-60 | a literal PUBLISH with its topic, identifier and message |
| WireExamples.Publish5 | pkg/mqtt/codec/v5/publish_test.go:22-60 | a literal PUBLISH that is sent again, with a property |
| WireExamples.Subscribe311 | pkg/mqtt/codec/v311/subscribe_test.go:22-50 | a literal SUBSCRIBE to two topics |
| WireExamples.Unsubscribe311 | pkg/mqtt/codec/v311/unsubscribe_test.go:22-50 | a literal UNSUBSCRIBE from two topics |
| WireExamples.Puback5 | pkg/mqtt/codec/v5/puback_test.go:22-50 | a literal PUBACK with a reason and a property |
| WireExamples.Disconnect5 | pkg/mqtt/codec/v5/disconnect_test.go:22-50 | a literal DISCONNECT with a reason |
| WireExamples.AckBytes | pkg/mqtt/handler/handler.go:221-251 | the bytes of a PUBACK, PUBREC or PUBCOMP of the proxy, the same in both versions |
| WireExamples.ConnackBytes | pkg/mqtt/handler/handler.go:109-126 | the bytes of a CONNACK of the proxy: no session, the code of the login, and in version 5 the code 0x86 for 4 and no properties |
| WireExamples.PingrespBytes | pkg/mqtt/handler/handler.go:341-360 | the two bytes of a PINGRESP |
| Session.ReadTyped | pkg/mqtt/codec/v311/packets.go:81-114 | the variant of a packet that was read fits its type, so no handler meets a packet type it does not support |
| SessionProofs.ClosedStaysSilent | pkg/mqtt/server/response.go:88-107 | once closed, a connection stays closed and its reply trace does not grow, although buffered packets are still handled |
| SessionProofs.SessionInvariant | pkg/mqtt/server/conn.go:46-123 | in every reachable state: the handled trace is empty or starts with CONNECT and has its version throughout; every publisher call was made while authenticated or with PUBLISH allowed; and, unless CONNECT is ignored, the connection is closed or authenticated after the first packet |
| SessionProofs.AuthenticatedIffConnectHandled | pkg/mqtt/handler/handler.go:43-96 | closed or authenticated after the first packet, in all runs, if and only if CONNECT is not among the ignored messages |
| SessionProofs.HandleAuth | pkg/mqtt/handler/handler.go:43-219 | each handler keeps: open implies authenticated |
| SessionProofs.HandleCalls | pkg/mqtt/handler/handler.go:142-219 | each handler keeps: publisher calls only when authenticated or allowed |
| SessionProofs.Lifecycle | pkg/mqtt/server/conn.go:59-143 | every run has the state trace New (Active Idle)* Active? Closed, or a prefix before Closed |
| SessionProofs.LifecycleExactly | pkg/mqtt/server/conn.go:85-143 | the states exactly: one round of Active and Idle for each packet handled, one more Active if and only if the loop has ended in a failed read, and Closed if and only if it has ended |
| SessionAccounting.AcknowledgementConservation | pkg/mqtt/handler/handler.go:142-219 | per packet identifier: PUBACKs written are at most the successful completions of QoS 1 publishes, these at most the accepted ones, these at most the PUBLISHes handled; the same for PUBREC at QoS 2; PUBCOMPs at most the PUBRELs |
| SessionAccounting.AlwaysConserved | pkg/mqtt/handler/handler.go:142-323 | accepted publishes are exactly those completed and those in flight, and all replies are covered by successes and releases, in every reachable state |
| SessionAccounting.CallbackBooks | pkg/mqtt/handler/handler.go:156-198 | a callback completes its own publish and replies only to a success, with the acknowledgement its QoS asks for |
| SessionAccounting.PublishBooks | pkg/mqtt/handler/handler.go:142-219 | a handled PUBLISH keeps the books balanced, whatever the publisher does and whether it is asynchronous or not |
| SessionAccounting.OtherBooks | pkg/mqtt/handler/handler.go:57-96 | no other handler writes an acknowledgement, except one PUBCOMP for a PUBREL |
| SessionHistory.LoginsDecide | pkg/mqtt/handler/handler.go:57-96 | in every reachable state the connection is authenticated if and only if the last CONNECT that was handled, not ignored and answered by the authenticator with a code was answered with 0; the client identifier is that of this CONNECT, and the idle timeout half as long again as the last keep-alive that came with a login |
| SessionHistory.OpenExactly | pkg/mqtt/handler/handler.go:43-374 | in every reachable state the connection is open if and only if every packet handled left it open by the rules: CONNECT only with code 0, PUBLISH, PUBREL and PINGREQ only when authenticated or allowed, PUBLISH of QoS 1 or 2 only when taken, ignored messages always, all others never; and nothing broke it off |
| SessionHistory.FailedLoginCloses | pkg/mqtt/handler/handler.go:64-95 | a CONNECT that is not ignored and not answered with 0, by an error or another code, closes the connection for good |
| SessionHistory.PublishedExactly | pkg/mqtt/handler/handler.go:142-219 | in every run the calls of the publisher are, one for one and in order, the PUBLISHes handled that are not ignored, of QoS at most 2 and let through, each with that packet's topic, message, identifier, duplicate flag, QoS and retain flag and with the client identifier of the login before it |
| SessionHistory.InFlightExactly | pkg/mqtt/handler/handler.go:253-279 | in every run as many publishes are in flight as were taken with a QoS set to be asynchronous, less the callbacks that ran; the others taken were completed at once |
| SessionAnswers.AnswersBalance | pkg/mqtt/handler/handler.go:57-360 | in every run the replies written and the answers lost, because the socket was closed or the write failed, are together exactly those due: PUBACK and PUBREC to successful publishes, PUBCOMP to PUBREL, PINGRESP to PINGREQ, CONNACK with the code of the login, where 4 becomes 0x86 in version 5, or of the refusal |
| SessionAnswers.AllAnswered | pkg/mqtt/handler/handler.go:57-360 | on an open connection whose writes all went through the replies are exactly the answers due |
| SessionAnswers.NothingLost | pkg/mqtt/server/response.go:88-107 | while the connection is open and writes go through, no answer is lost |
| SessionAsync.AsyncRefinesSync | pkg/mqtt/handler/handler.go:142-279 | for any packets that keep the synchronous connection open, all publishes succeeding: for any asynchronous flags and any order of callbacks the same packets are handled and published, and when the callbacks have drained the replies are a permutation of the synchronous replies |
| SessionAsync.StepRefines | pkg/mqtt/handler/handler.go:253-279 | one step of the asynchronous run against one or no step of the synchronous one |
| SessionAsync.CallbackRefines | pkg/mqtt/handler/handler.go:156-198 | a callback moves its answer from the owed to the written ones |
| SessionStreams.HandledInOrder | pkg/mqtt/server/conn.go:46-56 | whatever happens on the connection, also when the input breaks off anywhere: the handled packets are those read off the front of what the client wrote, in order and without a gap |
| SessionStreams.HandlersSeeWhatWasSent | pkg/mqtt/server/conn.go:91-122 | in every run what was handled and the packets the client wrote agree, in order, as far as both go |
| SessionStreams.ClientToPublisher | pkg/mqtt/handler/handler.go:142-219 | in every run, from the client to the publisher: each call is for a packet that the client wrote and has its topic, message, identifier and flags, in the order in which they were written |
| SessionStreams.RefusedOnlyFirst | pkg/mqtt/codec/packets.go:26-33 | a protocol version is refused only while none has been negotiated |
| SessionStreams.ClientReadsReplies | pkg/mqtt/handler/handler.go:57-360 | in every reachable state the bytes written to the client read back, under the connection's version, as exactly the replies in order |
| Connection.ServeMux.constructor | pkg/mqtt/handler/handler.go:380-412 | after registration every type has the handler of the specification: ignored types override the five, others have none |
| Connection.Conn.DisconnectUnauthenticated | pkg/mqtt/handler/handler.go:43-55 | closes exactly when neither authenticated nor allowed, and says so |
| Connection.Conn.HandleConnect | pkg/mqtt/handler/handler.go:57-96 | the login decides: an error closes; a code other than 0 is answered and closes; 0 is answered and authenticates; client identifier and idle timeout are taken over with any code. What this means for all runs is in `SessionHistory.LoginsDecide` and `SessionAnswers.AnswersBalance` |
| Connection.Conn.PublishCallback | pkg/mqtt/handler/handler.go:156-198 | a success at QoS 1 or 2 is answered with PUBACK or PUBREC, a failure is not; one completion is recorded. That no answer is forgotten in any run is `SessionAnswers.AllAnswered` |
| Connection.Conn.HandlePublish | pkg/mqtt/handler/handler.go:142-219 | refused when not authenticated, dropped above QoS 2, else handed to the publisher, whose refusal closes at QoS 1 and 2; the callback runs at once or stays in flight. What the publisher gets is fixed in `SessionHistory.PublishedExactly` |
| Connection.Conn.Complete | pkg/mqtt/handler/handler.go:253-267 | a callback in flight leaves the queue and runs once |
| Connection.Conn.HandlePublishRelease | pkg/mqtt/handler/handler.go:308-323 | PUBCOMP with the identifier of the PUBREL, or close |
| Connection.Conn.HandlePing | pkg/mqtt/handler/handler.go:341-360 | PINGRESP of the same version, or close |
| Connection.Conn.ServeMQTT | pkg/mqtt/server/handler.go:62-70 | dispatch to the registered handler, or close |
| Connection.Conn.ReadRequest | pkg/mqtt/server/conn.go:46-56 | reads by the stored version and stores the version of what was read |
| Connection.Conn.HandleRequest | pkg/mqtt/server/conn.go:91-108 | a request that was read goes through the states active and idle with the handler in between |
| Connection.Conn.BreakOff | pkg/mqtt/server/conn.go:94-105 | a refused version is answered with a 3.1.1 CONNACK, then the loop ends |
| Connection.Conn.ServeRequest | pkg/mqtt/server/conn.go:91-108 | one round of the loop is one step of the session machine |
| Connection.Conn.Meanwhile | pkg/mqtt/handler/handler.go:156-198 | between two rounds callbacks run, the server closes the socket or the client dies, each as one step of the session machine |
| Connection.Conn.ServeRound | pkg/mqtt/server/conn.go:91-122 | what others do, one round of the loop and the check behind it are a run of the session machine |
| Connection.Conn.Serve | pkg/mqtt/server/conn.go:59-123 | the loop makes exactly the run of the session machine that the environment's choices determine, with callbacks, closes by the server and a dying client between the rounds |
| ServerProofs.ShutdownSafety | pkg/mqtt/server/server.go:161-195 | under every interleaving, once the locked section of any Shutdown or Close has ended: every listener in the map is closed and none is ever added, even by a call that had read the flag as false before; no connection is ever accepted again; the done channel is closed exactly once |
| ServerProofs.ClosedAtMostOnce | pkg/mqtt/server/server.go:241-251 | in every reachable state the done channel has been closed at most once |
| ServerProofs.FailedByShutdown | pkg/mqtt/server/server.go:58-80 | a Serve whose Accept failed on a listener closed by a shutdown never accepts again and can only return ErrServerClosed, temporary error or not |
| ServerProofs.LateServe | pkg/mqtt/server/server.go:47-54 | a Serve that begins after a section has ended can only return ErrServerClosed and never enters the map |
| ServerProofs.ShutdownStep | pkg/mqtt/server/server.go:161-280 | every step of every call keeps what each call knows: who holds the mutex, what its section has done, what a flag it read still means |
| ServerProofs.ServeOwn | pkg/mqtt/server/server.go:47-86 | a step of Serve keeps the shared invariant and what the call itself knows |
| ServerProofs.ServeGuarantee | pkg/mqtt/server/server.go:47-86 | a step of Serve leaves to every other call what that call relies on |
| ServerProofs.StopOwn | pkg/mqtt/server/server.go:161-195 | a step of Shutdown or Close keeps the shared invariant and what the call itself knows |
| ServerProofs.StopGuarantee | pkg/mqtt/server/server.go:161-195 | a step of Shutdown or Close leaves to every other call what that call relies on |
| ServerErrors.FailureDecides | pkg/mqtt/server/server.go:58-80 | whatever runs between a failed Accept and the look at the done channel: the call accepts again if and only if the error is temporary and the channel open by then, returns ErrServerClosed if and only if it is closed, and the error itself if and only if neither is so |
| ServerErrors.FailedForGood | pkg/mqtt/server/server.go:64-80 | in every run a call that returns the error of Accept had one that was not temporary, and has not accepted since |
| ServerErrors.ClosedMeansShutdown | pkg/mqtt/server/server.go:51-63 | in every run a call returns ErrServerClosed only after the shutdown flag was set |
| ServerErrors.TemporaryErrorsSurvived | pkg/mqtt/server/server.go:65-79 | a call leaves its loop only if the flag was set or an Accept failed for good: never for temporary errors alone |
| ServerErrors.ReturnedClean | pkg/mqtt/server/server.go:47-54 | in every run a call that has returned has taken its listener out of the map and closed it |
| ServerConns.NoLeak | pkg/mqtt/server/server.go:197-294 | in every reachable state each connection ever tracked is in the map or has had its socket closed, and the counter minus the size of the map is the number of those that left |
| ServerConns.NeverReadded | pkg/mqtt/server/server.go:282-294 | a connection that left the map never enters it again, and its socket is closed |
| ServerConns.SweepTellsTheTruth | pkg/mqtt/server/server.go:197-216 | the sweep is quiescent exactly when the map is empty as it unlocks, and every connection tracked so far is then closed; Close leaves the map empty |
| ServerConns.NothingTrackedAfterShutdown | pkg/mqtt/server/server.go:183-194 | once Shutdown has seen no listener left, no connection is ever tracked again and the map only shrinks |
| ServerConns.TrackingStep | pkg/mqtt/server/server.go:197-294 | every step of every call and connection keeps the tracking invariant and takes nothing back into the map |
| ServerSweep.SweptByWordLoaded | pkg/mqtt/server/server.go:201-214 | a step of the sweep that takes a connection out of the map closes its socket and judges a word that the sweep loaded earlier, under the same hold of the lock, and that was idle, or new with a time more than five seconds old; the word at that moment differs from the one loaded if and only if the connection itself has stored since and what it stored last differs |
| ServerSweep.LoadedEarlier | pkg/mqtt/server/server.go:201-208 | in every run: a sweep with a word in hand loaded it from that connection in an earlier step and has held the lock since |
| ServerSweep.WordAfter | pkg/mqtt/server/conn.go:130-143 | once its goroutine runs, a connection's word is the last one that goroutine stored, whatever the calls do |
| ServerSweep.WordExactly | pkg/mqtt/server/conn.go:130-143 | in every run a tracked connection's word is the last one its goroutine stored, before the first store New and the second in which it was started, and before that New without a time |
| ServerSweep.SparedByWordLoaded | pkg/mqtt/server/server.go:201-214 | a judgement leaves its connection in the map if and only if the word loaded has no time, or is neither Idle nor New since more than five seconds, and the sweep then does not call itself quiescent |
| ServerSweep.BusyConnectionSwept | pkg/mqtt/server/server.go:201-214 | a run in which a connection turns active between the load of its word and the judgement, and is closed |
| ServerReturns.EmptyAtReturn | pkg/mqtt/server/server.go:183-194 | a sweep about to unlock an empty map: in all runs in which that Shutdown returns successfully the map is empty then, if and only if no call waits to register an accepted connection as the sweep unlocks |
| ServerReturns.ShutdownReturnsQuiet | pkg/mqtt/server/server.go:183-194 | in every run in which a Shutdown has come to its end without giving up: it ended with no listener in the map, at an earlier step it unlocked a sweep with no connection in the map, and it has not swept again in between |
| ServerReturns.UnlockedEarlier | pkg/mqtt/server/server.go:197-216 | a Shutdown that holds the verdict of a sweep unlocked that sweep in an earlier step, with that verdict |
| ServerReturns.StoppedEarlier | pkg/mqtt/server/server.go:183-194 | the last step of a Shutdown that has come to its end was to give up or to count no listener behind a quiescent sweep |
| ServerReturns.EmptyForGood | pkg/mqtt/server/server.go:183-194 | if none waits, the map stays empty whatever runs afterwards |
| ServerReturns.LeavesConnection | pkg/mqtt/server/server.go:183-194 | if some call waits, in any reachable state whatever, there is a continuation in which Shutdown returns and its connection is tracked |
| ServerReturns.Drain | pkg/mqtt/server/server.go:58-85 | with the listeners closed and the lock free, all calls in their accept loops can return one after the other |
| ServerReturns.ShutdownMayLeaveConnections | pkg/mqtt/server/server.go:186-188 | such a state is reachable |
| ServerTracking.PackRoundTrip | pkg/mqtt/server/conn.go:125-143 | the state word decodes to the stored state and to the time modulo 2^56: to the time itself if and only if it is not negative and below 2^56 |
| ServerTracking.StopRunIsRun | pkg/mqtt/server/server.go:161-195 | an undisturbed call is one of the interleavings |
| ServerTracking.ServeRunIsRun | pkg/mqtt/server/server.go:47-86 | an undisturbed Serve is one of the interleavings |
| ServerTracking.Tracker.TrackListener | pkg/mqtt/server/server.go:265-280 | makes the steps lock, load, insert of the machine, or its removal step |
| ServerTracking.Tracker.TrackConn | pkg/mqtt/server/server.go:282-294 | makes the registration step of the machine; removal only removes |
| ServerTracking.Tracker.SetState | pkg/mqtt/server/conn.go:130-143 | registers a new connection, unregisters a closed one, and stores a word that decodes to the state and to the time modulo 2^56 |
| ServerTracking.Tracker.GetState | pkg/mqtt/server/conn.go:125-128 | the word decodes to what was stored last |
| ServerTracking.Tracker.GetDoneChan | pkg/mqtt/server/server.go:228-239 | makes the channel if there is none, and the step of the machine |
| ServerTracking.Tracker.CloseDoneChanLocked | pkg/mqtt/server/server.go:241-251 | closed afterwards, and counted as closed only if it was not |
| ServerTracking.Tracker.CloseListenersLocked | pkg/mqtt/server/server.go:218-226 | every listener in the map is closed, in whichever order, by steps of the machine |
| ServerTracking.Tracker.CloseIdleConns | pkg/mqtt/server/server.go:197-216 | whatever connections do while it runs: what stays is what the word loaded for it does not allow to sweep at the time it is looked at, the rest is closed, true exactly when nothing stays, in whichever order; an interleaving of the machine |
| ServerTracking.Tracker.LookAt | pkg/mqtt/server/server.go:201-214 | one connection: the word loaded decides, although connections go on before the load and before the close |
| ServerTracking.Tracker.Meanwhile | pkg/mqtt/server/conn.go:91-122 | what connections do while the sweep holds the lock: steps of the machine that leave the map alone |
| ServerTracking.Tracker.CloseConnsLocked | pkg/mqtt/server/server.go:168-171 | every connection is closed and the map emptied |
| ServerTracking.Tracker.ShutdownSection | pkg/mqtt/server/server.go:175-181 | flag, listeners, channel: a run of the machine |
| ServerTracking.Tracker.Close | pkg/mqtt/server/server.go:161-173 | flag, channel, listeners, connections: a run of the machine |
| ServerTracking.Tracker.Become | pkg/mqtt/server/server.go:24-45 | the fields take over what other calls have made of the shared state |
| ServerLoops.Calls.Serve | pkg/mqtt/server/server.go:47-86 | the accept loop with any steps of other calls in between is a run of the machine; once it returns its listener is out of the map and closed, ErrServerClosed means that the flag is set and the error that an Accept failed for good |
| ServerLoops.Calls.AcceptLoop | pkg/mqtt/server/server.go:58-85 | connections are accepted, registered and started, failures retried or returned, as a run of the machine; the sleeps behind temporary failures are those of the back-off |
| ServerLoops.Calls.AcceptFailure | pkg/mqtt/server/server.go:59-80 | the done channel is fetched and looked at, then the error decides: steps of the machine |
| ServerLoops.Calls.Took | pkg/mqtt/server/server.go:81-85 | a connection is accepted, registered under the lock, given its word and started: steps of the machine |
| ServerLoops.BackOffDoubles | pkg/mqtt/server/server.go:65-77 | the n-th temporary failure in a row is followed by a sleep of five milliseconds times 2 to the n-1, and of one second from the ninth on |
| ServerLoops.Calls.Shutdown | pkg/mqtt/server/server.go:175-195 | the whole call with any steps of other calls before the section and in the poll loop is a run of the machine; if it returns no listener is left and some sweep of it has unlocked an empty map |
| ServerLoops.Calls.PollUntilQuiet | pkg/mqtt/server/server.go:183-194 | the poll loop is a run of the machine and gives up only where it is told to |
| ServerLoops.Calls.PollOnce | pkg/mqtt/server/server.go:185-194 | one sweep and, if it was quiescent, one count of the listeners: steps of the machine |
| ServerLoops.Calls.Decide | pkg/mqtt/server/server.go:186-194 | returns if and only if the sweep was quiescent and no listener is left, as the machine does |
| Pems.ChecksumSeparates | pkg/tls/cert/source/pems.go:22-28 | two checksums are equal if and only if the revocation lists are and the digests of the rest are |
| Pems.BoundariesAreNotHashed | pkg/tls/cert/source/pems.go:22-28 | bytes that move from the certificate block to the key block do not change the checksum, whatever the hash |
| Pems.ComputeChecksum | pkg/tls/cert/source/pems.go:22-28 | the running hash and its sum give the revocation bytes followed by the digest of the three other blocks |
| Pems.ValidateCRLs | pkg/tls/cert/source/pems.go:56-84 | true if and only if there are no client CAs or no lists, or everything parses and each list is signed by some CA |
| Pems.GetServerCerts | pkg/tls/cert/filesource/filesource.go:59-85 | the first failing part decides; otherwise certificates, CAs, lists and checksum |
| Pems.LoadedExactly | pkg/tls/cert/source/pems.go:30-84 | files load if and only if they are read, the key pair, the client block and the lists parse, and each list is signed by a certificate of the client block if there is one; clients are then asked for certificates if and only if that block is not empty, which are to chain to exactly the certificates in it |
| Pems.ChecksumFixesCRLs | pkg/tls/cert/source/pems.go:22-28 | two successful loads with the same checksum have the same revocation lists |
| Watch.Run | pkg/tls/cert/source/watch.go:10-50 | with a positive refresh: every load is made and what is sent is the change filter; without: the loop ends with the first successful load, having sent it exactly if it differs from what was sent before |
| Watch.FilterIsChangePoints | pkg/tls/cert/source/watch.go:18-39 | comparing with what was sent selects exactly the successful loads whose checksum differs from the previous successful load |
| Watch.SentIsCurrent | pkg/tls/cert/source/watch.go:26-39 | after each load the checksum sent last is that of the last successful load |
| Watch.NoRepeats | pkg/tls/cert/source/watch.go:26-39 | consecutive emissions, the initial one included, never share a checksum |
| Revocation.MagnitudeRoundTrip | pkg/tls/cert/source/store.go:25-37 | the minimal big-endian bytes determine the number |
| Revocation.KeysAreInjective | pkg/tls/cert/source/store.go:30-35 | two serial numbers have the same map key if and only if they have the same magnitude |
| Revocation.CertStore.Build | pkg/tls/cert/source/store.go:26-34 | the index holds exactly the keys of the listed serial numbers |
| Revocation.CertStore.IsClientCertRevoked | pkg/tls/cert/source/store.go:25-37 | the lazily built index answers as a scan of the lists does, on the first call and later ones |
| Revocation.CertStore.Copy | pkg/tls/cert/source/store.go:52-54 | a copy by value keeps the lists and the state of the index |
| Revocation.VerifyClientCertificate | pkg/tls/server.go:65-84 | fails if and only if some certificate in a verified chain that is not a CA's has a serial of a listed magnitude; the early exit on no lists and the index in a copy change nothing |
| Revocation.RevokedExactly | pkg/tls/server.go:65-84 | a client is refused if and only if at some position of some chain there is a certificate that is not a CA's and whose serial number stands, up to its sign, at some position of some list |
| Revocation.ServeFromSource | pkg/tls/server.go:29-48 | however many of the watcher's values have been received: the store holds those received last, in all parts; once all are received its lists are those of the last successful load |
| Revocation.StoredListsAreCurrent | pkg/tls/cert/source/watch.go:10-50 | the lists sent last are those of the last successful load, even when a change of certificate or key goes unnoticed |
| Revocation.UnnoticedExactly | pkg/tls/cert/source/watch.go:18-39 | if the digest tells the two reads apart: a load sends nothing if and only if it fails or reads the same lists and the same bytes in the other three blocks taken together |
| Revocation.StoredIsCurrent | pkg/tls/cert/source/watch.go:18-39 | if the digest tells the two reads apart: what was sent last comes from the blocks of the last successful load if and only if certificate and key have the same lengths in both, and is then current in every part |
| Revocation.Store.SetServerCerts | pkg/tls/cert/source/store.go:56-60 | a new value with an unbuilt index replaces the stored one |
| ChannelProvider.SingleCreation | pkg/publisher/rabbitmq/channel_provider.go:23-41 | under every interleaving at most one NewChannel succeeds, the slot holds it whenever the lock is free, and every successful call returns it |
| ChannelProvider.FailureLeavesSlotEmpty | pkg/publisher/rabbitmq/channel_provider.go:32-36 | a failed creation leaves an empty slot and a free lock, and the next call to get the lock creates again |
| ChannelProvider.NoLockOnceFilled | pkg/publisher/rabbitmq/channel_provider.go:23-27 | in every run, once the slot is filled a call that begins returns the only channel ever created by its first step, whoever holds the lock |
| ChannelProvider.OwnStep | pkg/publisher/rabbitmq/channel_provider.go:23-41 | a step of a call keeps the shared invariant and what the call knows |
| ChannelProvider.OtherStep | pkg/publisher/rabbitmq/channel_provider.go:23-41 | a step of a call takes nothing away from what another call knows |
| ChannelProvider.Provider.GetChannel | pkg/publisher/rabbitmq/channel_provider.go:23-41 | returns what is in the slot, else what another call created meanwhile, else what it creates and stores; a channel returned is the one in the slot and the only one created; the locked part is a run of the machine |

## Left out

- Nil and empty slices are one value; a field that is absent is the empty string.
- The v3.1.1 acknowledgements are one variant, told apart by the header, and so are the v5 ones and the packets without a body; each of these groups has the same code.
- The fields of a packet whose `Unpack` failed: the source discards it, and nothing is claimed about them.
- One class stands for the buffered reader, the tee, the multi-reader and the counting reader that the source wraps around each other; that reads may return fewer bytes than asked for is hidden by reading in full.
- The varint reader follows the standard library of Go 1.20, where an input that ends inside a varint is an unexpected EOF.
- Write errors inside a packet: a write reaches the client whole or not at all. The code gives every request its own lock, so that writes of different requests are not interleaved is an assumption.
- Panics in handlers and the recover in `serve`; TLS handshakes and deadlines. The idle timeout is set from the keep-alive, but whether it strikes is up to the environment: the loop may return behind any round.
- Authentication and the publishers are decided by the environment: a login fails or returns a code, a publish is refused or taken, and a callback that was taken runs at most once.
- Equality of synchronous and asynchronous replies when a publish fails: the two paths treat errors differently by design.
- Exactly-once delivery at QoS 2: the proxy keeps no packet identifiers.
- The contents of v5 properties, AUTH, UTF-8 checks, topic routing, metrics and logging.
- Server: the listening and the early check of the flag in `ListenAndServe`; the sleeps of `Serve` are computed, but time does not pass; `Accept` may fail at any time and succeeds only on an open listener; the overflow of the 64-bit connection counter.
- The context of `Shutdown`: giving up may happen at any poll. The machine also lets a call give up before its first sweep, the method does not.
- ServerTracking: inside a locked section only connections go on, and only during the sweep; `ServerLoops` lets all other calls run between the sections, but not between setting the flag and taking the lock in `Shutdown`, where only the machine does. `Close` is a method without a loop around it.
- Revocation: a check that overlaps an exchange of the stored certificates sees one of the two; the copy and the exchange are single steps here.
- The hash, the PEM and X.509 parsers and the signature check are parameters; of the hash only its length is used.
- Revocation.ServeFromSource: the values received are the first of those sent, in order; the channel itself and its capacity are not modelled.
- Watch.Run: the loop is run for as many loads as are given, and sleeping and the change callback are not modelled.
- ChannelProvider: `CloseChannel` and the retry of the client, whose compare-and-swap with nil is not a step that can succeed.
- Kafka, SQS and SNS clients, the HTTP endpoints, configuration parsing and the command line.
