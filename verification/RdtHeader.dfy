/** The 20-byte datagram header, its checksum, and the gates a datagram passes on each side. */
module RdtHeader {
  import opened Bytes
  import opened CompressedMode
  import opened ModeCodec
  import opened RdtSender
  import opened FileHandler

  const HEADER_SIZE: nat := 20
  const RECV_BUF: nat := HEADER_SIZE + 1024 + 64
  const ACK_BUF: nat := HEADER_SIZE + 64

  const FLAG_DATA: nat := 0x01
  const FLAG_ACK: nat := 0x02
  const FLAG_FIN: nat := 0x04
  const FLAG_START: nat := 0x08
  const FLAG_ABORT: nat := 0x10

  type u16 = x: int | 0 <= x < 0x1_0000
  type u32 = x: int | 0 <= x < 0x1_0000_0000

  /** The checksum function. Nothing is assumed of it but that it is a function into 32 bits. */
  type Crc = Chunk -> u32

  datatype Header = Header(transferId: int, num: int, ackNum: int, flags: int, checksum: int, length: int)

  predicate IsValidFlags(flags: int) {
    flags in {FLAG_DATA, FLAG_FIN, FLAG_DATA + FLAG_FIN, FLAG_ACK, FLAG_START, FLAG_ABORT}
  }

  predicate HasFlag(flags: u16, flag: nat)
    requires flag > 0
  {
    flags / flag % 2 == 1
  }

  predicate Fits16(x: int) {
    0 <= x < 0x1_0000
  }

  predicate Fits32(x: int) {
    0 <= x < 0x1_0000_0000
  }

  function Pack16(x: u16): Chunk {
    [x / 0x100, x % 0x100]
  }

  function Pack32(x: u32): Chunk {
    [x / 0x100_0000, x / 0x1_0000 % 0x100, x / 0x100 % 0x100, x % 0x100]
  }

  function Unpack16(b: Chunk, at: nat): u16
    requires at + 2 <= |b|
  {
    (b[at] as int) * 0x100 + b[at + 1] as int
  }

  function Unpack32(b: Chunk, at: nat): u32
    requires at + 4 <= |b|
  {
    (b[at] as int) * 0x100_0000 + (b[at + 1] as int) * 0x1_0000 + (b[at + 2] as int) * 0x100 + b[at + 3] as int
  }

  lemma Unpack16Inverts(x: u16, b: Chunk, at: nat)
    requires at + 2 <= |b| && b[at..at + 2] == Pack16(x)
    ensures Unpack16(b, at) == x
  {
    assert b[at] == b[at..at + 2][0] && b[at + 1] == b[at..at + 2][1];
  }

  /** A number from its four digits to base 256. */
  lemma Digits(x: u32)
    ensures x / 0x100_0000 * 0x100_0000 + x / 0x1_0000 % 0x100 * 0x1_0000 + x / 0x100 % 0x100 * 0x100 + x % 0x100 == x
  {
    var high := x / 0x1_0000;
    assert high / 0x100 == x / 0x100_0000;
    assert high == high / 0x100 * 0x100 + high % 0x100;
    assert x / 0x100 == high * 0x100 + x / 0x100 % 0x100;
  }

  lemma Unpack32Inverts(x: u32, b: Chunk, at: nat)
    requires at + 4 <= |b| && b[at..at + 4] == Pack32(x)
    ensures Unpack32(b, at) == x
  {
    var s := b[at..at + 4];
    assert b[at] == s[0] && b[at + 1] == s[1] && b[at + 2] == s[2] && b[at + 3] == s[3];
    Digits(x);
  }

  datatype Packed = Refused | Bytes(bytes: Chunk)

  /** The header's fields all fit their places. */
  predicate FieldsFit(h: Header) {
    && Fits32(h.transferId) && Fits32(h.num) && Fits32(h.ackNum)
    && Fits16(h.flags) && Fits32(h.checksum) && Fits16(h.length)
  }

  function Layout(h: Header): Chunk
    requires FieldsFit(h)
  {
    Pack32(h.transferId) + Pack32(h.num) + Pack32(h.ackNum) + Pack16(h.flags) + Pack32(h.checksum) + Pack16(h.length)
  }

  function Serialize(h: Header): Packed {
    if !IsValidFlags(h.flags) || !FieldsFit(h) then Refused else Bytes(Layout(h))
  }

  datatype Parsed = TooShort | Read(h: Header)

  function Deserialize(data: Chunk): Parsed {
    if |data| < HEADER_SIZE then TooShort
    else Read(Header(Unpack32(data, 0), Unpack32(data, 4), Unpack32(data, 8),
                     Unpack16(data, 12), Unpack32(data, 14), Unpack16(data, 18)))
  }

  /** Where each field stands in the 20 bytes. */
  lemma FieldPlaces(h: Header)
    requires FieldsFit(h)
    ensures var b := Layout(h);
      && |b| == HEADER_SIZE
      && b[0..4] == Pack32(h.transferId) && b[4..8] == Pack32(h.num) && b[8..12] == Pack32(h.ackNum)
      && b[12..14] == Pack16(h.flags) && b[14..18] == Pack32(h.checksum) && b[18..20] == Pack16(h.length)
  {
  }

  /** Serialise then deserialise gives every field back, whatever payload follows. */
  lemma HeaderRoundTrip(h: Header, payload: Chunk)
    requires FieldsFit(h)
    ensures |Layout(h)| == HEADER_SIZE && Deserialize(Layout(h) + payload) == Read(h)
  {
    FieldPlaces(h);
    var b := Layout(h) + payload;
    assert b[..HEADER_SIZE] == Layout(h);
    Unpack32Inverts(h.transferId, b, 0);
    Unpack32Inverts(h.num, b, 4);
    Unpack32Inverts(h.ackNum, b, 8);
    Unpack16Inverts(h.flags, b, 12);
    Unpack32Inverts(h.checksum, b, 14);
    Unpack16Inverts(h.length, b, 18);
  }

  /**
   * Deserialise then serialise gives the bytes back, or is refused exactly for flags that are not
   * valid; and no two headers share their bytes.
   */
  lemma BytesRoundTrip(data: Chunk)
    requires |data| >= HEADER_SIZE
    ensures FieldsFit(Deserialize(data).h) && Layout(Deserialize(data).h) == data[..HEADER_SIZE]
    ensures Serialize(Deserialize(data).h) ==
      if Unpack16(data, 12) in {1, 2, 4, 5, 8, 16} then Bytes(data[..20]) else Refused
    ensures forall h :: FieldsFit(h) && Layout(h) == data[..HEADER_SIZE] ==> h == Deserialize(data).h
  {
    forall h | FieldsFit(h) && Layout(h) == data[..HEADER_SIZE] ensures h == Deserialize(data).h {
      HeaderRoundTrip(h, data[HEADER_SIZE..]);
      assert Layout(h) + data[HEADER_SIZE..] == data;
    }
    Repack32(data, 0);
    Repack32(data, 4);
    Repack32(data, 8);
    Repack16(data, 12);
    Repack32(data, 14);
    Repack16(data, 18);
    assert data[..HEADER_SIZE] == data[0..4] + data[4..8] + data[8..12] + data[12..14] + data[14..18] + data[18..20];
  }

  /** The four digits to base 256 of a number made of them. */
  lemma DigitsOf(a: byte, b: byte, c: byte, d: byte)
    ensures var x := (a as int) * 0x100_0000 + (b as int) * 0x1_0000 + (c as int) * 0x100 + d as int;
      x / 0x100_0000 == a && x / 0x1_0000 % 0x100 == b && x / 0x100 % 0x100 == c && x % 0x100 == d
  {
    var x := (a as int) * 0x100_0000 + (b as int) * 0x1_0000 + (c as int) * 0x100 + d as int;
    assert x / 0x100 == (a as int) * 0x1_0000 + (b as int) * 0x100 + c as int;
    assert x / 0x1_0000 == (a as int) * 0x100 + b as int;
  }

  lemma Repack32(b: Chunk, at: nat)
    requires at + 4 <= |b|
    ensures Pack32(Unpack32(b, at)) == b[at..at + 4]
  {
    DigitsOf(b[at], b[at + 1], b[at + 2], b[at + 3]);
    assert b[at..at + 4] == [b[at], b[at + 1], b[at + 2], b[at + 3]];
  }

  lemma Repack16(b: Chunk, at: nat)
    requires at + 2 <= |b|
    ensures Pack16(Unpack16(b, at)) == b[at..at + 2]
  {
  }

  /** The checksum covers every field but itself, the length as 32 bits, and the payload. */
  function ChecksumOf(crc: Crc, h: Header, payload: Chunk): u32
    requires FieldsFit(h)
  {
    crc(Pack32(h.transferId) + Pack32(h.num) + Pack32(h.ackNum) + Pack16(h.flags) + Pack32(h.length) + payload)
  }

  predicate Verifies(crc: Crc, h: Header, payload: Chunk)
    requires FieldsFit(h)
  {
    h.checksum == ChecksumOf(crc, h, payload)
  }

  /** A sealed datagram: header with its checksum, then the payload. */
  function Datagram(crc: Crc, transferId: int, num: int, ackNum: int, flags: int, payload: Chunk): Packed {
    var h := Header(transferId, num, ackNum, flags, 0, |payload|);
    if !FieldsFit(h) then Refused
    else
      match Serialize(h.(checksum := ChecksumOf(crc, h, payload)))
      case Refused => Refused
      case Bytes(b) => Bytes(b + payload)
  }

  // START metadata: 64-bit size, then one byte each for MODE and TYPE

  const METADATA_SIZE: nat := 10
  const LEGACY_METADATA_SIZE: nat := 8

  type u64 = x: int | 0 <= x < 0x1_0000_0000_0000_0000

  function Pack64(x: u64): Chunk {
    Pack32(x / 0x1_0000_0000) + Pack32(x % 0x1_0000_0000)
  }

  function ModeByte(m: Mode): byte {
    match m case ModeS => 0x53 case ModeB => 0x42 case ModeC => 0x43
  }

  function TypeByte(t: Representation): byte {
    if t.Ascii? then 0x41 else 0x49
  }

  function EncodeMetadata(size: u64, m: Mode, t: Representation): Chunk {
    Pack64(size) + [ModeByte(m), TypeByte(t)]
  }

  datatype Metadata = BadMetadata | Legacy(size: u64) | Current(size: u64, m: Mode, t: Representation)

  function DecodeMetadata(payload: Chunk): Metadata {
    if |payload| != METADATA_SIZE && |payload| != LEGACY_METADATA_SIZE then BadMetadata
    else
      var size := Unpack32(payload, 0) * 0x1_0000_0000 + Unpack32(payload, 4);
      if |payload| == LEGACY_METADATA_SIZE then Legacy(size)
      else if payload[8] !in {0x53, 0x42, 0x43} || payload[9] !in {0x41, 0x49} then BadMetadata
      else Current(size,
                   if payload[8] == 0x53 then ModeS else if payload[8] == 0x42 then ModeB else ModeC,
                   if payload[9] == 0x41 then Ascii else Image)
  }

  lemma MetadataRoundTrip(size: u64, m: Mode, t: Representation)
    ensures |EncodeMetadata(size, m, t)| == METADATA_SIZE
    ensures DecodeMetadata(EncodeMetadata(size, m, t)) == Current(size, m, t)
  {
    var high, low := Pack32(size / 0x1_0000_0000), Pack32(size % 0x1_0000_0000);
    var b := EncodeMetadata(size, m, t);
    assert b[0..4] == high && b[4..8] == low;
    Unpack32Inverts(size / 0x1_0000_0000, b, 0);
    Unpack32Inverts(size % 0x1_0000_0000, b, 4);
  }

  /** What the receive loop makes of the bytes of one datagram. */
  datatype Seen =
    | Nothing                                 // dropped by a gate
    | AbortSeen
    | StartSeen(meta: Metadata)
    | DataSeen(num: nat, fin: bool, payload: Chunk)

  /** The receiver's gates, in the order the loop applies them, on what the socket buffer holds. */
  function ReceiverGate(crc: Crc, transferId: u32, wire: Chunk): Seen {
    var data := if |wire| > RECV_BUF then wire[..RECV_BUF] else wire;
    if |data| < HEADER_SIZE then Nothing
    else HeaderGate(crc, transferId, Deserialize(data).h, data[HEADER_SIZE..])
  }

  function HeaderGate(crc: Crc, transferId: u32, h: Header, rest: Chunk): Seen
    requires FieldsFit(h)
  {
    if h.transferId != transferId then Nothing
    else if HasFlag(h.flags, FLAG_ABORT) then
      if Verifies(crc, h, []) then AbortSeen else Nothing
    else if HasFlag(h.flags, FLAG_START) then
      if h.flags != FLAG_START || h.num != 0 || h.length != |rest| || !Verifies(crc, h, rest) then Nothing
      else StartSeen(DecodeMetadata(rest))
    else if h.length != |rest| || !IsValidFlags(h.flags) || !Verifies(crc, h, rest) then Nothing
    else DataSeen(h.num, HasFlag(h.flags, FLAG_FIN), rest)
  }

  /** A datagram that the socket has cut keeps its header, and loses the end of its payload. */
  lemma CutDatagram(wire: Chunk)
    requires |wire| > RECV_BUF
    ensures Deserialize(wire[..RECV_BUF]) == Deserialize(wire)
  {
  }

  datatype AckSeen = NoAck | AckFor(k: nat)

  /** The sender's gate for acknowledgments. */
  function SenderGate(crc: Crc, transferId: u32, wire: Chunk): AckSeen {
    var data := if |wire| > ACK_BUF then wire[..ACK_BUF] else wire;
    if |data| < HEADER_SIZE then NoAck
    else
      var h := Deserialize(data).h;
      if Verifies(crc, h, []) && h.length == 0 && h.flags == FLAG_ACK && h.transferId == transferId && h.num == 0
      then AckFor(h.ackNum) else NoAck
  }

  /** The bytes of what the sender puts on the forward channel. */
  function ForwardBytes(crc: Crc, transferId: u32, size: u64, next: nat, d: Forward): Packed {
    match d
    case Start(m, t) => Datagram(crc, transferId, 0, 0, FLAG_START, EncodeMetadata(size, m, t))
    case Carry(p) => Datagram(crc, transferId, p.num, 0, if p.fin then FLAG_FIN else FLAG_DATA, p.payload)
    case Abort => Datagram(crc, transferId, next, 0, FLAG_ABORT, [])
  }

  function AckBytes(crc: Crc, transferId: u32, k: nat): Packed {
    Datagram(crc, transferId, 0, k, FLAG_ACK, [])
  }

  /** A sealed datagram parses back, and its checksum verifies. */
  lemma DatagramParses(crc: Crc, transferId: int, num: int, ackNum: int, flags: int, payload: Chunk)
    requires FieldsFit(Header(transferId, num, ackNum, flags, 0, |payload|)) && IsValidFlags(flags)
    ensures var d := Datagram(crc, transferId, num, ackNum, flags, payload);
      && d.Bytes? && |d.bytes| == HEADER_SIZE + |payload| && d.bytes[HEADER_SIZE..] == payload
      && (var h := Deserialize(d.bytes).h;
          && h == Header(transferId, num, ackNum, flags, h.checksum, |payload|)
          && Verifies(crc, h, payload))
  {
    var h0 := Header(transferId, num, ackNum, flags, 0, |payload|);
    var h := h0.(checksum := ChecksumOf(crc, h0, payload));
    HeaderRoundTrip(h, payload);
  }

  /**
   * A data packet of the sender's gets through the receiver's gates as itself exactly when its
   * payload fits the receive buffer; a larger one is cut by the socket and dropped every time.
   */
  lemma PacketAccepted(crc: Crc, transferId: u32, size: u64, next: nat, p: Packet)
    requires Fits32(p.num) && Fits16(|p.payload|)
    ensures ForwardBytes(crc, transferId, size, next, Carry(p)).Bytes?
    ensures ReceiverGate(crc, transferId, ForwardBytes(crc, transferId, size, next, Carry(p)).bytes) ==
      if |p.payload| <= 1088 then DataSeen(p.num, p.fin, p.payload) else Nothing
  {
    var flags := if p.fin then FLAG_FIN else FLAG_DATA;
    DatagramParses(crc, transferId, p.num, 0, flags, p.payload);
    var wire := ForwardBytes(crc, transferId, size, next, Carry(p)).bytes;
    if |wire| > RECV_BUF {
      CutDatagram(wire);
    }
  }

  /** The last packet is sent with the FIN flag alone, the others with DATA. */
  lemma PacketFlags(crc: Crc, transferId: u32, size: u64, next: nat, p: Packet)
    requires Fits32(p.num) && Fits16(|p.payload|)
    ensures ForwardBytes(crc, transferId, size, next, Carry(p)).Bytes?
    ensures var h := Deserialize(ForwardBytes(crc, transferId, size, next, Carry(p)).bytes).h;
      h.flags == (if p.fin then 4 else 1) && h.ackNum == 0 && h.num == p.num
  {
    DatagramParses(crc, transferId, p.num, 0, if p.fin then FLAG_FIN else FLAG_DATA, p.payload);
  }

  /** A sealed START passes the gate with its payload as metadata. */
  lemma StartGate(crc: Crc, transferId: u32, payload: Chunk)
    requires |payload| == METADATA_SIZE
    ensures var d := Datagram(crc, transferId, 0, 0, FLAG_START, payload);
      d.Bytes? && ReceiverGate(crc, transferId, d.bytes) == StartSeen(DecodeMetadata(payload))
  {
    DatagramParses(crc, transferId, 0, 0, FLAG_START, payload);
  }

  lemma StartAccepted(crc: Crc, transferId: u32, size: u64, next: nat, m: Mode, t: Representation)
    ensures ForwardBytes(crc, transferId, size, next, Start(m, t)).Bytes?
    ensures ReceiverGate(crc, transferId, ForwardBytes(crc, transferId, size, next, Start(m, t)).bytes)
         == StartSeen(Current(size, m, t))
  {
    MetadataRoundTrip(size, m, t);
    StartGate(crc, transferId, EncodeMetadata(size, m, t));
  }

  lemma AbortAccepted(crc: Crc, transferId: u32, size: u64, next: nat)
    requires Fits32(next)
    ensures ForwardBytes(crc, transferId, size, next, Abort).Bytes?
    ensures var wire := ForwardBytes(crc, transferId, size, next, Abort).bytes;
      ReceiverGate(crc, transferId, wire) == AbortSeen && |wire| == 20 && Deserialize(wire).h.num == next
  {
    DatagramParses(crc, transferId, next, 0, FLAG_ABORT, []);
  }

  lemma AckAccepted(crc: Crc, transferId: u32, k: nat)
    requires Fits32(k)
    ensures AckBytes(crc, transferId, k).Bytes?
    ensures SenderGate(crc, transferId, AckBytes(crc, transferId, k).bytes) == AckFor(k)
  {
    DatagramParses(crc, transferId, 0, k, FLAG_ACK, []);
  }

  /** The receiver's flag gate lets an acknowledgment in as data: the forward channel must not carry any. */
  lemma AckPassesAsData(crc: Crc, transferId: u32, k: nat)
    requires Fits32(k)
    ensures AckBytes(crc, transferId, k).Bytes?
    ensures ReceiverGate(crc, transferId, AckBytes(crc, transferId, k).bytes) == DataSeen(0, false, [])
  {
    DatagramParses(crc, transferId, 0, k, FLAG_ACK, []);
  }

  /** Every data datagram of a file read in pieces and encoded gets through the receiver's gates as itself. */
  lemma DatagramsAccepted(cfg: Config, content: Chunk, crc: Crc, transferId: u32, size: u64, i: nat)
    requires IsEncoded(cfg.mode, cfg.t, FilePieces(content, WIRE_CHUNK_SIZE), cfg.chunks)
    requires i < |Packets(cfg.chunks)| && Fits32(i)
    ensures var p := Packets(cfg.chunks)[i];
      var d := ForwardBytes(crc, transferId, size, i, Carry(p));
      d.Bytes? && ReceiverGate(crc, transferId, d.bytes) == DataSeen(p.num, p.fin, p.payload)
  {
    WireChunksFit(cfg.mode, cfg.t, content, cfg.chunks);
    PacketAccepted(crc, transferId, size, i, Packets(cfg.chunks)[i]);
  }
}
