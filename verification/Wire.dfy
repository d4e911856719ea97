/** Packets on the wire: the 16-byte big-endian header, the sending and the receiving
    constructors of Packet, the receiver's own Packet1, and what each side reads back.
    cpp/src/base and cpp/src/opt share this format. */
module Wire {
  import opened Crc
  import opened CrcDetection
  import CrcCheckValue

  const HEADER_SIZE := 16
  const CHUNK_SIZE := 1456
  const SEND_BUFFER := 1472 // receiveAck reads into HEADER_SIZE + CHUNK_SIZE bytes
  const RECV_BUFFER := 1500 // startReceiving reads into 1500 bytes
  const TWO32 := 0x1_0000_0000
  const TWO64 := 0x1_0000_0000_0000_0000
  const TWO31 := 0x8000_0000

  type u32 = x: int | 0 <= x < TWO32

  const START: u32 := 0
  const END: u32 := 1
  const DATA: u32 := 2
  const ACK: u32 := 3
  const TIMEOUT: u32 := 4 // what receiveAck returns when nothing came

  datatype Header = Header(typ: u32, seqNum: u32, length: u32, checksum: u32)

  datatype Packet = Packet(header: Header, data: seq<byte>)

  /** How the C++ leaves its defined behaviour. */
  datatype Fault =
    | ShortBuffer // fewer bytes than a header: the constructor throws
    | Overread    // header.length reaches past the buffer that memcpy reads from
    | EmptyDeque  // front or pop_front on an empty window

  datatype Result<+T> = Ok(value: T) | Err(fault: Fault)

  // ---- Integer widths ----

  /** Conversion to a 32-bit unsigned integer. */
  function ToU32(x: int): u32 {
    x % TWO32
  }

  /** Two's-complement conversion of an unsigned value to int. */
  function ToInt32(x: u32): int {
    if x < TWO31 then x else x - TWO32
  }

  /** Both conversions keep the 32 low bits, which is all that their ranges leave open. */
  lemma ConversionsAre(x: u32, y: int)
    ensures -0x8000_0000 <= ToInt32(x) < 0x8000_0000 && (x - ToInt32(x)) % 0x1_0000_0000 == 0
    ensures 0 <= ToU32(y) < 0x1_0000_0000 && (y - ToU32(y)) % 0x1_0000_0000 == 0
    ensures ToU32(ToInt32(x)) == x
  {
  }

  lemma SmallConversions(x: int)
    requires 0 <= x < 0x8000_0000
    ensures ToU32(x) == x && ToInt32(x) == x
  {
  }

  // ---- Checksums of byte strings ----

  type byte = x: int | 0 <= x < 256

  lemma OctetSuccessor(o: octet)
    requires o != 255
    ensures (o + 1) as int == o as int + 1
  {
  }

  // The uint8_t of value b, reached by counting: an int-to-bit-vector cast says the same
  // but is out of the solver's reach.
  function Octet(b: byte): (o: octet)
    ensures o as int == b
  {
    if b == 0 then 0
    else
      var o := Octet(b - 1);
      assert o as int != 255;
      OctetSuccessor(o);
      o + 1
  }

  /** The bytes as the CRC loop reads them, through a uint8_t pointer. */
  function Octets(data: seq<byte>): (o: seq<octet>)
    ensures |o| == |data|
    ensures forall i | 0 <= i < |data| :: o[i] as int == data[i]
  {
    seq(|data|, i requires 0 <= i < |data| => Octet(data[i]))
  }

  function CrcU32(data: seq<byte>): u32 {
    Crc32(Octets(data)) as int
  }

  lemma WordThroughInt(v: bv32)
    ensures (v as int) as bv32 == v
  {
  }

  lemma SameOctetsSameBytes(p: seq<byte>, q: seq<byte>)
    requires Octets(p) == Octets(q)
    ensures p == q
  {
    assert |p| == |Octets(p)| == |Octets(q)| == |q|;
    forall i | 0 <= i < |p|
      ensures p[i] == q[i]
    {
      assert Octets(p)[i] == Octets(q)[i];
    }
  }

  lemma CrcU32Separates(p: seq<byte>, q: seq<byte>)
    ensures CrcU32(p) == CrcU32(q) <==> Crc32(Octets(p)) == Crc32(Octets(q))
  {
    WordThroughInt(Crc32(Octets(p)));
    WordThroughInt(Crc32(Octets(q)));
  }

  /** q is p after a burst of at most 32 bits, in transmission order. */
  ghost predicate Burst(p: seq<byte>, q: seq<byte>) {
    BurstDamage(Octets(p), Octets(q))
  }

  lemma OctetThroughInt(o: octet, p: octet)
    requires o as int == p as int
    ensures o == p
  {
  }

  /** The checksum is the standard one, of the bytes in their order: the characters 1 to 9
      give the published check value of CRC-32. */
  lemma ChecksumOfDigits()
    ensures CrcU32([0x31, 0x32, 0x33, 0x34, 0x35, 0x36, 0x37, 0x38, 0x39]) == 0xCBF4_3926
  {
    var data: seq<byte> := [0x31, 0x32, 0x33, 0x34, 0x35, 0x36, 0x37, 0x38, 0x39];
    var p: seq<octet> := [0x31, 0x32, 0x33, 0x34, 0x35, 0x36, 0x37, 0x38, 0x39];
    forall i | 0 <= i < 9
      ensures Octets(data)[i] == p[i]
    {
      OctetThroughInt(Octets(data)[i], p[i]);
    }
    assert Octets(data) == p;
    CrcCheckValue.CheckValue();
  }

  /** The checksum test catches every burst that changes the payload. */
  lemma BurstFailsChecksum(p: seq<byte>, q: seq<byte>)
    requires Burst(p, q) && p != q
    ensures CrcU32(p) != CrcU32(q)
  {
    if Octets(p) == Octets(q) {
      SameOctetsSameBytes(p, q);
    } else {
      BurstDetected(Octets(p), Octets(q));
      CrcU32Separates(p, q);
    }
  }

  lemma EmptyChecksum()
    ensures CrcU32([]) == 0
  {
    EmptyCrc();
    assert Octets([]) == [];
  }

  // ---- htonl / ntohl and memcpy of one header field ----

  function EncodeU32(x: u32): (b: seq<byte>)
    ensures |b| == 4
  {
    var high, low := x / 0x1_0000, x % 0x1_0000;
    [high / 0x100, high % 0x100, low / 0x100, low % 0x100]
  }

  function DecodeU32(b: seq<byte>): u32
    requires |b| == 4
  {
    (b[0] as int) * 0x100_0000 + (b[1] as int) * 0x1_0000 + (b[2] as int) * 0x100 + (b[3] as int)
  }

  lemma DecodeEncode(x: u32)
    ensures DecodeU32(EncodeU32(x)) == x
  {
    var high, low := x / 0x1_0000, x % 0x1_0000;
    assert x == high * 0x1_0000 + low;
    assert high == high / 0x100 * 0x100 + high % 0x100;
    assert low == low / 0x100 * 0x100 + low % 0x100;
  }

  function HeaderBytes(h: Header): (b: seq<byte>)
    ensures |b| == HEADER_SIZE
  {
    EncodeU32(h.typ) + EncodeU32(h.seqNum) + EncodeU32(h.length) + EncodeU32(h.checksum)
  }

  function ParseHeader(b: seq<byte>): Header
    requires |b| >= HEADER_SIZE
  {
    Header(DecodeU32(b[0..4]), DecodeU32(b[4..8]), DecodeU32(b[8..12]), DecodeU32(b[12..16]))
  }

  /** ntohl undoes htonl: a buffer that begins with the bytes of a header parses to it. */
  lemma HeaderRoundTrip(b: seq<byte>, h: Header)
    requires |b| >= HEADER_SIZE && b[..HEADER_SIZE] == HeaderBytes(h)
    ensures ParseHeader(b) == h
  {
    var c := b[..HEADER_SIZE];
    assert b[0..4] == c[0..4] == EncodeU32(h.typ);
    assert b[4..8] == c[4..8] == EncodeU32(h.seqNum);
    assert b[8..12] == c[8..12] == EncodeU32(h.length);
    assert b[12..16] == c[12..16] == EncodeU32(h.checksum);
    DecodeEncode(h.typ);
    DecodeEncode(h.seqNum);
    DecodeEncode(h.length);
    DecodeEncode(h.checksum);
  }

  /** The number whose digits to base 256 are b, most significant first. */
  function BigEndian(b: seq<byte>): nat
    decreases |b|
  {
    if b == [] then 0 else BigEndian(b[..|b| - 1]) * 256 + b[|b| - 1]
  }

  lemma EncodeIsBigEndian(x: u32)
    ensures BigEndian(EncodeU32(x)) == x
  {
    var b := EncodeU32(x);
    assert b[..3][..2] == b[..2] && b[..2][..1] == b[..1] && b[..1][..0] == [];
    assert BigEndian(b[..1]) == b[0];
    assert BigEndian(b[..2]) == BigEndian(b[..1]) * 256 + b[1];
    assert BigEndian(b[..3]) == BigEndian(b[..2]) * 256 + b[2];
    var high, low := x / 0x1_0000, x % 0x1_0000;
    assert (b[0] as int) * 256 + b[1] == high && (b[2] as int) * 256 + b[3] == low;
  }

  /** The header goes out as four fields of four bytes in network order. */
  lemma HeaderIsBigEndian(h: Header)
    ensures var b := HeaderBytes(h);
            && BigEndian(b[0..4]) == h.typ && BigEndian(b[4..8]) == h.seqNum
            && BigEndian(b[8..12]) == h.length && BigEndian(b[12..16]) == h.checksum
  {
    hide EncodeU32, BigEndian;
    var b := HeaderBytes(h);
    assert b[0..4] == EncodeU32(h.typ) && b[4..8] == EncodeU32(h.seqNum);
    assert b[8..12] == EncodeU32(h.length) && b[12..16] == EncodeU32(h.checksum);
    EncodeIsBigEndian(h.typ);
    EncodeIsBigEndian(h.seqNum);
    EncodeIsBigEndian(h.length);
    EncodeIsBigEndian(h.checksum);
  }

  // ---- Packets ----

  /** The sending constructor. */
  function MakePacket(typ: u32, data: seq<byte>, seqNum: u32): Packet {
    Packet(Header(typ, seqNum, ToU32(|data|), CrcU32(data)), data)
  }

  // recvfrom into a fixed buffer: longer datagrams are cut.
  function Truncate(d: seq<byte>, size: nat): (r: seq<byte>)
    ensures |r| <= size
  {
    if |d| <= size then d else d[..size]
  }

  /** The buffer sendPacket hands to sendto: the header and header.length bytes of data. */
  function Serialize(p: Packet): seq<byte> {
    HeaderBytes(p.header) + Truncate(p.data, p.header.length)
  }

  /** The receiving constructor of Packet. */
  function ParsePacket(buffer: seq<byte>): Result<Packet> {
    if |buffer| < HEADER_SIZE then Err(ShortBuffer)
    else
      var h := ParseHeader(buffer);
      if h.length > |buffer| - HEADER_SIZE then Err(Overread)
      else Ok(Packet(h, buffer[HEADER_SIZE..HEADER_SIZE + h.length]))
  }

  /** The receiver's Packet1: the payload is whatever follows the header. */
  function ParsePacket1(buffer: seq<byte>): Result<Packet> {
    if |buffer| < HEADER_SIZE then Err(ShortBuffer)
    else Ok(Packet(ParseHeader(buffer), buffer[HEADER_SIZE..]))
  }

  /** isAckValid, and the receiver's comparison of the same two values as ints. */
  predicate ChecksumOk(p: Packet) {
    p.header.checksum == CrcU32(p.data)
  }

  function Zeros(n: nat): (z: seq<byte>)
    ensures |z| == n
  {
    seq(n, _ => 0)
  }

  /** receiveAck's zero-initialised buffer, once d has been received into it. */
  function Padded(d: seq<byte>): seq<byte> {
    var b := Truncate(d, SEND_BUFFER);
    b + Zeros(SEND_BUFFER - |b|)
  }

  /** receiveAck parses the whole buffer, however short the datagram. */
  function ReceiveAckBytes(d: seq<byte>): Result<Packet> {
    ParsePacket(Padded(d))
  }

  function AckHeader(seqNum: u32): Header {
    Header(ACK, seqNum, 0, 0)
  }

  /** What the receiver's sendto puts on the wire: the header of ackPacket and the rest of
      the 1500-byte array ACK, which nothing has written. */
  predicate IsAckDatagram(d: seq<byte>, seqNum: u32) {
    |d| == RECV_BUFFER && d[..HEADER_SIZE] == HeaderBytes(AckHeader(seqNum))
  }

  /** The type field of each kind of packet, as the bytes that go out. */
  lemma TypeBytes(data: seq<byte>, seqNum: u32)
    ensures HeaderBytes(MakePacket(START, data, seqNum).header)[..4] == [0, 0, 0, 0]
    ensures HeaderBytes(MakePacket(END, data, seqNum).header)[..4] == [0, 0, 0, 1]
    ensures HeaderBytes(MakePacket(DATA, data, seqNum).header)[..4] == [0, 0, 0, 2]
    ensures HeaderBytes(AckHeader(seqNum))[..4] == [0, 0, 0, 3]
    ensures HeaderBytes(AckHeader(seqNum))[8..] == [0, 0, 0, 0, 0, 0, 0, 0]
    ensures forall d | IsAckDatagram(d, seqNum) :: |d| == 1500
  {
    hide CrcU32;
  }

  lemma DecodeIsBigEndian(b: seq<byte>)
    requires |b| == 4
    ensures DecodeU32(b) == BigEndian(b)
  {
    assert b[..3][..2] == b[..2] && b[..2][..1] == b[..1] && b[..1][..0] == [];
    assert BigEndian(b[..1]) == b[0];
    assert BigEndian(b[..2]) == BigEndian(b[..1]) * 256 + b[1];
    assert BigEndian(b[..3]) == BigEndian(b[..2]) * 256 + b[2];
  }

  /** Where the two parsers fail: Packet on a buffer shorter than a header, or than the length
      in its header says, Packet1 on the first alone. */
  lemma ParsersFailIff(b: seq<byte>)
    ensures ParsePacket(b).Err? <==> |b| < 16 || BigEndian(b[8..12]) > |b| - 16
    ensures ParsePacket1(b).Err? <==> |b| < 16
  {
    if |b| >= 16 {
      DecodeIsBigEndian(b[8..12]);
    }
  }

  lemma ParsePacketOf(b: seq<byte>, h: Header, data: seq<byte>)
    requires |data| == h.length && HEADER_SIZE + |data| <= |b|
    requires b[..HEADER_SIZE] == HeaderBytes(h)
    requires b[HEADER_SIZE..HEADER_SIZE + |data|] == data
    ensures ParsePacket(b) == Ok(Packet(h, data))
  {
    HeaderRoundTrip(b, h);
  }

  lemma ZeroBytes()
    ensures HeaderBytes(Header(0, 0, 0, 0)) == [0, 0, 0, 0, 0, 0, 0, 0, 0, 0, 0, 0, 0, 0, 0, 0]
  {
  }

  lemma ZeroHeader()
    ensures ReceiveAckBytes([]) == Ok(Packet(Header(0, 0, 0, 0), []))
  {
    hide HeaderBytes;
    var p, h := Padded([]), Header(0, 0, 0, 0);
    ZeroBytes();
    assert p[..16] == HeaderBytes(h);
    ParsePacketOf(p, h, []);
  }

  lemma PaddedEnds(d: seq<byte>)
    ensures |Padded(d)| == 1472
    ensures |d| >= 1472 ==> Padded(d) == Padded(d[..1472])
    ensures |d| < 1472 ==> Padded(d) == Padded(d + [0])
    ensures |d| >= 16 ==> Padded(d)[8..12] == d[8..12]
  {
    var p := Padded(d);
    if |d| < 1472 {
      var q := Padded(d + [0]);
      forall i | 0 <= i < 1472
        ensures p[i] == q[i]
      {
      }
      assert p == q;
    } else {
      assert p == d[..1472] && Padded(d[..1472]) == d[..1472];
    }
  }

  /** What receiveAck makes of a reply: it sees at most 1472 bytes of it, and zeros where it
      ends; an empty datagram is a packet of zeros. It reads past its buffer iff the length in
      the header is over 1456. */
  lemma RepliesRead(d: seq<byte>)
    ensures ReceiveAckBytes([]) == Ok(Packet(Header(0, 0, 0, 0), []))
    ensures |d| >= 1472 ==> ReceiveAckBytes(d) == ReceiveAckBytes(d[..1472])
    ensures |d| < 1472 ==> ReceiveAckBytes(d) == ReceiveAckBytes(d + [0])
    ensures |d| >= 16 ==> (ReceiveAckBytes(d).Err? <==> BigEndian(d[8..12]) > 1456)
  {
    hide ParsePacket, BigEndian;
    ZeroHeader();
    PaddedEnds(d);
    if |d| >= 16 {
      ParsersFailIff(Padded(d));
    }
  }

  /** What the receiver makes of a datagram: its data is what follows the 16 bytes of the header,
      up to byte 1500. */
  lemma DatagramsRead(d: seq<byte>)
    requires |d| >= 16
    ensures var r := ParsePacket1(Truncate(d, RECV_BUFFER));
            && r.Ok?
            && r.value.header == ParseHeader(d)
            && r.value.data == if |d| <= 1500 then d[16..] else d[16..1500]
  {
    var b := Truncate(d, RECV_BUFFER);
    assert b[0..4] == d[0..4] && b[4..8] == d[4..8] && b[8..12] == d[8..12] && b[12..16] == d[12..16];
  }

  // ---- Round trips ----

  lemma ParsePacket1Of(h: Header, payload: seq<byte>)
    requires |payload| <= CHUNK_SIZE
    ensures ParsePacket1(Truncate(HeaderBytes(h) + payload, RECV_BUFFER)) == Ok(Packet(h, payload))
  {
    var b := HeaderBytes(h) + payload;
    assert b[..HEADER_SIZE] == HeaderBytes(h) && b[HEADER_SIZE..] == payload;
    HeaderRoundTrip(b, h);
  }

  lemma SerializedParts(p: Packet)
    requires p.header.length == |p.data|
    ensures Serialize(p) == HeaderBytes(p.header) + p.data
    ensures Serialize(p)[..HEADER_SIZE] == HeaderBytes(p.header)
    ensures Serialize(p)[HEADER_SIZE..] == p.data
  {
  }

  /** Both parsers read back every packet the sender can make, and accept it. */
  lemma WireRoundTrip(typ: u32, data: seq<byte>, seqNum: u32)
    requires |data| <= CHUNK_SIZE
    ensures var p := MakePacket(typ, data, seqNum);
            && p == Packet(Header(typ, seqNum, |data|, CrcU32(data)), data)
            && |Serialize(p)| == 16 + |data| <= 1472
            && Serialize(p)[..16] == HeaderBytes(p.header) && Serialize(p)[16..] == data
            && ParsePacket(Serialize(p)) == Ok(p)
            && ParsePacket1(Truncate(Serialize(p), RECV_BUFFER)) == Ok(p)
            && ChecksumOk(p)
  {
    hide CrcU32, HeaderBytes, ParsePacket, ParsePacket1;
    var p := MakePacket(typ, data, seqNum);
    SerializedParts(p);
    var b := Serialize(p);
    ParsePacketOf(b, p.header, data);
    ParsePacket1Of(p.header, data);
  }

  /** The zero padding of receiveAck's buffer is not mistaken for data. */
  lemma PaddedRoundTrip(typ: u32, data: seq<byte>, seqNum: u32)
    requires |data| <= CHUNK_SIZE
    ensures ReceiveAckBytes(Serialize(MakePacket(typ, data, seqNum))) == Ok(MakePacket(typ, data, seqNum))
  {
    hide CrcU32, HeaderBytes;
    var p := MakePacket(typ, data, seqNum);
    SerializedParts(p);
    var b := Serialize(p);
    var c := b + Zeros(SEND_BUFFER - |b|);
    assert c[..HEADER_SIZE] == b[..HEADER_SIZE];
    assert c[HEADER_SIZE..HEADER_SIZE + |data|] == b[HEADER_SIZE..] == data;
    ParsePacketOf(c, p.header, data);
  }

  /** Damage behind the header reaches Packet1 as damage to the payload alone, and passes
      the checksum test exactly when the two payloads share a CRC. */
  lemma DamagedPayloadParses(typ: u32, data: seq<byte>, seqNum: u32, payload: seq<byte>)
    requires |payload| == |data| <= CHUNK_SIZE
    ensures var p := MakePacket(typ, data, seqNum);
            var q := Packet(p.header, payload);
            && ParsePacket1(Truncate(HeaderBytes(p.header) + payload, RECV_BUFFER)) == Ok(q)
            && (ChecksumOk(q) <==> CrcU32(payload) == CrcU32(data))
  {
    ParsePacket1Of(MakePacket(typ, data, seqNum).header, payload);
  }

  /** Every ACK the receiver sends parses to (3, seqNum, 0, 0) with no data, and is valid,
      whatever the unwritten bytes behind its header hold. */
  lemma AckRoundTrip(d: seq<byte>, seqNum: u32)
    requires |d| >= 16 && d[..16] == HeaderBytes(AckHeader(seqNum))
    ensures ReceiveAckBytes(d) == Ok(Packet(Header(3, seqNum, 0, 0), []))
    ensures ChecksumOk(Packet(Header(3, seqNum, 0, 0), []))
  {
    var b := Truncate(d, SEND_BUFFER);
    var c := b + Zeros(SEND_BUFFER - |b|);
    assert c[..HEADER_SIZE] == d[..HEADER_SIZE];
    ParsePacketOf(c, AckHeader(seqNum), []);
    EmptyChecksum();
  }
}
