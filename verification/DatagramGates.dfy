/** Which byte strings pass the datagram gates, and as what, told by the bytes themselves. */
module DatagramGates {
  import opened Bytes
  import opened ModeCodec
  import opened CompressedMode
  import opened RdtHeader

  /** The number that bytes in network order stand for. */
  function BigEndian(b: Chunk): nat {
    if b == [] then 0 else BigEndian(b[..|b| - 1]) * 256 + b[|b| - 1]
  }

  lemma BigEndian2(b: Chunk, at: nat)
    requires at + 2 <= |b|
    ensures BigEndian(b[at..at + 2]) == Unpack16(b, at)
  {
    assert b[at..at + 2] == [b[at], b[at + 1]];
    BigEndianPair([], b[at], b[at + 1]);
  }

  lemma BigEndianPair(front: Chunk, x: byte, y: byte)
    ensures BigEndian(front + [x, y]) == BigEndian(front) * 65536 + x * 256 + y
  {
    var b := front + [x, y];
    assert b[..|b| - 1] == front + [x] && (front + [x])[..|front|] == front;
  }

  lemma BigEndian4(b: Chunk, at: nat)
    requires at + 4 <= |b|
    ensures BigEndian(b[at..at + 4]) == Unpack32(b, at)
  {
    assert b[at..at + 4] == [] + [b[at], b[at + 1]] + [b[at + 2], b[at + 3]];
    BigEndianPair([], b[at], b[at + 1]);
    BigEndianPair([] + [b[at], b[at + 1]], b[at + 2], b[at + 3]);
  }

  /** The checksum field holds the checksum of the other 16 bytes, the length widened to 32 bits, and `payload`. */
  predicate IsIntact(crc: Crc, data: Chunk, payload: Chunk)
    requires |data| >= 20
  {
    BigEndian(data[14..18]) == crc(data[..14] + [0, 0] + data[18..20] + payload)
  }

  /** The parsed header against the bytes. */
  lemma HeaderBytes(crc: Crc, data: Chunk, payload: Chunk)
    requires |data| >= 20
    ensures var h := Deserialize(data).h;
      && h.transferId == BigEndian(data[0..4]) && h.num == BigEndian(data[4..8]) && h.ackNum == BigEndian(data[8..12])
      && h.flags == BigEndian(data[12..14]) && h.length == BigEndian(data[18..20])
      && FieldsFit(h) && (Verifies(crc, h, payload) <==> IsIntact(crc, data, payload))
  {
    var h := Deserialize(data).h;
    BigEndian4(data, 0);
    BigEndian4(data, 4);
    BigEndian4(data, 8);
    BigEndian2(data, 12);
    BigEndian4(data, 14);
    BigEndian2(data, 18);
    ChecksumBytes(data, h, payload);
  }

  /** The bytes that the checksum is taken of. */
  lemma ChecksumBytes(data: Chunk, h: Header, payload: Chunk)
    requires |data| >= 20 && h == Deserialize(data).h
    ensures Pack32(h.transferId) + Pack32(h.num) + Pack32(h.ackNum) + Pack16(h.flags) + Pack32(h.length) + payload
         == data[..14] + [0, 0] + data[18..20] + payload
  {
    Repack32(data, 0);
    Repack32(data, 4);
    Repack32(data, 8);
    Repack16(data, 12);
    Repack16(data, 18);
    assert data[..14] == data[0..4] + data[4..8] + data[8..12] + data[12..14];
    assert Pack32(h.length) == [0, 0] + Pack16(h.length);
  }

  /** What the socket passes on of a datagram: at most 1108 bytes to the receiver. */
  function Received(wire: Chunk): Chunk {
    if |wire| > 1108 then wire[..1108] else wire
  }

  /** Data flags are those with neither the ABORT nor the START bit that are valid at all. */
  lemma DataFlags(flags: u16)
    ensures !HasFlag(flags, FLAG_ABORT) && !HasFlag(flags, FLAG_START) && IsValidFlags(flags) <==> flags in {1, 2, 4, 5}
    ensures flags in {1, 2, 4, 5} ==> (HasFlag(flags, FLAG_FIN) <==> flags in {4, 5})
  {
  }

  lemma HeaderIsData(crc: Crc, transferId: u32, h: Header, rest: Chunk)
    requires FieldsFit(h)
    ensures HeaderGate(crc, transferId, h, rest).DataSeen? <==>
      h.transferId == transferId && h.flags in {1, 2, 4, 5} && h.length == |rest| && Verifies(crc, h, rest)
    ensures HeaderGate(crc, transferId, h, rest).DataSeen? ==>
      HeaderGate(crc, transferId, h, rest) == DataSeen(h.num, h.flags in {4, 5}, rest)
  {
    DataFlags(h.flags);
  }

  /**
   * A datagram is taken as data exactly when its bytes say so: it belongs to the transfer, its length is that of
   * its payload, its flags are DATA, ACK or FIN ones, and it is intact.
   */
  lemma DataIff(crc: Crc, transferId: u32, wire: Chunk, num: nat, fin: bool, payload: Chunk)
    ensures var data := Received(wire);
      ReceiverGate(crc, transferId, wire) == DataSeen(num, fin, payload) <==>
        && |data| >= 20 && payload == data[20..] && BigEndian(data[18..20]) == |payload|
        && BigEndian(data[0..4]) == transferId && BigEndian(data[4..8]) == num
        && BigEndian(data[12..14]) in (if fin then {4, 5} else {1, 2})
        && IsIntact(crc, data, payload)
  {
    var data := Received(wire);
    if |data| >= 20 {
      HeaderIsData(crc, transferId, Deserialize(data).h, data[20..]);
      HeaderBytes(crc, data, data[20..]);
    }
  }

  /** A datagram is taken as a START exactly when it is an intact one of the transfer, numbered 0, with no other flag. */
  lemma StartIff(crc: Crc, transferId: u32, wire: Chunk, meta: Metadata)
    ensures var data := Received(wire);
      ReceiverGate(crc, transferId, wire) == StartSeen(meta) <==>
        && |data| >= 20 && meta == DecodeMetadata(data[20..]) && BigEndian(data[18..20]) == |data| - 20
        && BigEndian(data[0..4]) == transferId && BigEndian(data[4..8]) == 0
        && BigEndian(data[12..14]) == 8
        && IsIntact(crc, data, data[20..])
  {
    var data := Received(wire);
    if |data| >= 20 {
      HeaderBytes(crc, data, data[20..]);
    }
  }

  /** A datagram ends the receiver exactly when it belongs to the transfer, has the ABORT bit, and its header is intact. */
  lemma AbortIff(crc: Crc, transferId: u32, wire: Chunk)
    ensures var data := Received(wire);
      ReceiverGate(crc, transferId, wire) == AbortSeen <==>
        && |data| >= 20 && BigEndian(data[0..4]) == transferId
        && BigEndian(data[12..14]) / 16 % 2 == 1
        && IsIntact(crc, data, [])
  {
    var data := Received(wire);
    if |data| >= 20 {
      HeaderBytes(crc, data, []);
    }
  }

  /** The sender hears an acknowledgment exactly from an intact, empty ACK of its transfer; it reads 84 bytes at most. */
  lemma AckIff(crc: Crc, transferId: u32, wire: Chunk, k: nat)
    ensures var data := if |wire| > 84 then wire[..84] else wire;
      SenderGate(crc, transferId, wire) == AckFor(k) <==>
        && |data| >= 20 && BigEndian(data[0..4]) == transferId && BigEndian(data[4..8]) == 0
        && BigEndian(data[8..12]) == k && BigEndian(data[12..14]) == 2 && BigEndian(data[18..20]) == 0
        && IsIntact(crc, data, [])
  {
    var data := if |wire| > 84 then wire[..84] else wire;
    if |data| >= 20 {
      HeaderBytes(crc, data, []);
    }
  }

  /** The letter of a mode and of a type. */
  function LetterOf(m: Mode): char {
    match m case ModeS => 'S' case ModeB => 'B' case ModeC => 'C'
  }

  function TypeLetter(t: Representation): char {
    match t case Ascii => 'A' case Image => 'I'
  }

  lemma BigEndian8(b: Chunk)
    requires |b| >= 8
    ensures BigEndian(b[..8]) == Unpack32(b, 0) * 0x1_0000_0000 + Unpack32(b, 4)
  {
    BigEndian4(b, 0);
    BigEndianPair(b[..4], b[4], b[5]);
    BigEndianPair(b[..6], b[6], b[7]);
    assert b[..6] == b[..4] + [b[4], b[5]] && b[..8] == b[..6] + [b[6], b[7]];
  }

  /** START metadata names a size, a mode and a type exactly when it is the eight bytes of the one and the letters of the others. */
  lemma MetadataIff(payload: Chunk, size: u64, m: Mode, t: Representation)
    ensures DecodeMetadata(payload) == Current(size, m, t) <==>
      && |payload| == 10 && BigEndian(payload[..8]) == size
      && payload[8] == LetterOf(m) as int && payload[9] == TypeLetter(t) as int
    ensures DecodeMetadata(payload) == Legacy(size) <==> |payload| == 8 && BigEndian(payload[..8]) == size
  {
    if |payload| >= 8 {
      BigEndian8(payload);
    }
  }
}
