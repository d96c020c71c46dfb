/** Packets, their 25-byte packed header, and the modular comparisons of sequence numbers. */
module CmuPacket {
  import opened Types

  const IDENTIFIER := 15441

  datatype Header = Header(src: uint16, dst: uint16, seqNum: uint32, ackNum: uint32, hlen: uint16, plen: uint16,
                           flags: uint8, window: uint16, extLen: uint16)

  function Byte(n: nat): uint8 {
    (n % 0x100) as uint8
  }

  /** Network byte order, most significant byte first. */
  function Be16(n: nat): (s: seq<uint8>)
    requires n < 0x1_0000
    ensures |s| == 2
  {
    [Byte(n / 0x100), Byte(n)]
  }

  function Be32(n: nat): (s: seq<uint8>)
    requires n < TWO_32
    ensures |s| == 4
  {
    [Byte(n / 0x100_0000), Byte(n / 0x1_0000), Byte(n / 0x100), Byte(n)]
  }

  function At16(s: seq<uint8>, i: nat): uint16
    requires i + 2 <= |s|
  {
    s[i] as uint16 * 0x100 + s[i + 1] as uint16
  }

  function At32(s: seq<uint8>, i: nat): uint32
    requires i + 4 <= |s|
  {
    s[i] as uint32 * 0x100_0000 + s[i + 1] as uint32 * 0x1_0000 + s[i + 2] as uint32 * 0x100 + s[i + 3] as uint32
  }

  lemma Be16RoundTrip(n: nat)
    requires n < 0x1_0000
    ensures At16(Be16(n), 0) as int == n
  {
  }

  lemma Be32RoundTrip(n: nat)
    requires n < TWO_32
    ensures At32(Be32(n), 0) as int == n
  {
    assert n / 0x100_0000 < 0x100;
    assert n == (n / 0x100) * 0x100 + n % 0x100;
    assert n / 0x1_0000 == (n / 0x100) / 0x100 && n / 0x100_0000 == (n / 0x1_0000) / 0x100;
    assert n / 0x100 == (n / 0x1_0000) * 0x100 + (n / 0x100) % 0x100;
    assert n / 0x1_0000 == (n / 0x100_0000) * 0x100 + (n / 0x1_0000) % 0x100;
  }

  lemma At16RoundTrip(s: seq<uint8>, i: nat)
    requires i + 2 <= |s|
    ensures Be16(At16(s, i) as int) == s[i..i + 2]
  {
    var n := s[i] as int * 0x100 + s[i + 1] as int;
    assert n / 0x100 == s[i] as int && n % 0x100 == s[i + 1] as int;
  }

  /** The four bytes of a 32-bit number. */
  lemma BytesOf32(a: nat, b: nat, c: nat, d: nat, n: nat)
    requires a < 0x100 && b < 0x100 && c < 0x100 && d < 0x100
    requires n == a * 0x100_0000 + b * 0x1_0000 + c * 0x100 + d
    ensures n < TWO_32 && n / 0x100_0000 == a && n / 0x1_0000 % 0x100 == b && n / 0x100 % 0x100 == c && n % 0x100 == d
  {
    assert n / 0x1_0000 == a * 0x100 + b;
    assert n / 0x100 == a * 0x1_0000 + b * 0x100 + c;
  }

  lemma At32RoundTrip(s: seq<uint8>, i: nat)
    requires i + 4 <= |s|
    ensures Be32(At32(s, i) as int) == s[i..i + 4]
  {
    BytesOf32(s[i] as nat, s[i + 1] as nat, s[i + 2] as nat, s[i + 3] as nat, At32(s, i) as nat);
  }

  /** The identifier, the ports and the two numbers. */
  function EncodeFront(h: Header): (s: seq<uint8>)
    ensures |s| == 16
  {
    Be32(IDENTIFIER) + Be16(h.src as nat) + Be16(h.dst as nat) + Be32(h.seqNum as nat) + Be32(h.ackNum as nat)
  }

  function EncodeHeader(h: Header): (s: seq<uint8>)
    ensures |s| == HEADER_LEN
  {
    EncodeFront(h) + Be16(h.hlen as nat) + Be16(h.plen as nat) + [h.flags] + Be16(h.window as nat)
    + Be16(h.extLen as nat)
  }

  /** What the getters read from the first 25 bytes. */
  function DecodeHeader(pkt: seq<uint8>): Header
    requires HEADER_LEN <= |pkt|
  {
    Header(At16(pkt, 4), At16(pkt, 6), At32(pkt, 8), At32(pkt, 12), At16(pkt, 16), At16(pkt, 18), pkt[20],
           At16(pkt, 21), At16(pkt, 23))
  }

  /** plen - hlen, cut to 16 bits. */
  function GetPayloadLen(pkt: seq<uint8>): uint16
    requires HEADER_LEN <= |pkt|
  {
    ((DecodeHeader(pkt).plen as int - DecodeHeader(pkt).hlen as int) % 0x1_0000) as uint16
  }

  function GetPayload(pkt: seq<uint8>): seq<uint8>
    requires HEADER_LEN <= |pkt|
    requires HEADER_LEN + DecodeHeader(pkt).extLen as int + GetPayloadLen(pkt) as int <= |pkt|
  {
    var offset := HEADER_LEN + DecodeHeader(pkt).extLen as int;
    pkt[offset..offset + GetPayloadLen(pkt) as int]
  }

  /** The headers every caller builds: no extension, and lengths that describe the packet. */
  predicate Describes(h: Header, payload: seq<uint8>) {
    h.hlen as int == HEADER_LEN && h.plen as int == HEADER_LEN + |payload| && h.extLen == 0
  }

  /** A byte string that is a packet of that kind. */
  predicate WellFormed(pkt: seq<uint8>) {
    && HEADER_LEN <= |pkt| && pkt[..4] == Be32(IDENTIFIER)
    && Describes(DecodeHeader(pkt), pkt[HEADER_LEN..])
  }

  lemma AddressFields(h: Header, rest: seq<uint8>)
    ensures var s := EncodeHeader(h) + rest;
            && s[..4] == Be32(IDENTIFIER)
            && s[4..6] == Be16(h.src as nat) && s[6..8] == Be16(h.dst as nat)
            && s[8..12] == Be32(h.seqNum as nat) && s[12..16] == Be32(h.ackNum as nat)
  {
  }

  lemma LengthFields(h: Header, rest: seq<uint8>)
    ensures var s := EncodeHeader(h) + rest;
            && s[16..18] == Be16(h.hlen as nat) && s[18..20] == Be16(h.plen as nat)
            && s[20] == h.flags
  {
  }

  lemma WindowFields(h: Header, rest: seq<uint8>)
    ensures var s := EncodeHeader(h) + rest;
            s[21..23] == Be16(h.window as nat) && s[23..25] == Be16(h.extLen as nat)
  {
    var front := Be32(IDENTIFIER) + Be16(h.src as nat) + Be16(h.dst as nat) + Be32(h.seqNum as nat)
               + Be32(h.ackNum as nat) + Be16(h.hlen as nat) + Be16(h.plen as nat) + [h.flags];
    assert |front| == 21;
    assert EncodeHeader(h) + rest == front + (Be16(h.window as nat) + (Be16(h.extLen as nat) + rest));
  }

  /** The slice of each field, in the order the header lays them out. */
  lemma FieldSlices(h: Header, rest: seq<uint8>)
    ensures var s := EncodeHeader(h) + rest;
            && s[..4] == Be32(IDENTIFIER)
            && s[4..6] == Be16(h.src as nat) && s[6..8] == Be16(h.dst as nat)
            && s[8..12] == Be32(h.seqNum as nat) && s[12..16] == Be32(h.ackNum as nat)
            && s[16..18] == Be16(h.hlen as nat) && s[18..20] == Be16(h.plen as nat)
            && s[20] == h.flags
            && s[21..23] == Be16(h.window as nat) && s[23..25] == Be16(h.extLen as nat)
  {
    AddressFields(h, rest);
    LengthFields(h, rest);
    WindowFields(h, rest);
  }

  lemma At16Slice(s: seq<uint8>, i: nat, n: nat)
    requires i + 2 <= |s| && n < 0x1_0000 && s[i..i + 2] == Be16(n)
    ensures At16(s, i) as int == n
  {
    Be16RoundTrip(n);
    assert s[i] == s[i..i + 2][0] && s[i + 1] == s[i..i + 2][1];
  }

  lemma At32Slice(s: seq<uint8>, i: nat, n: nat)
    requires i + 4 <= |s| && n < TWO_32 && s[i..i + 4] == Be32(n)
    ensures At32(s, i) as int == n
  {
    Be32RoundTrip(n);
    var t := s[i..i + 4];
    assert s[i] == t[0] && s[i + 1] == t[1] && s[i + 2] == t[2] && s[i + 3] == t[3];
  }

  /** The two bytes from `i` are the number n, most significant byte first. */
  predicate BigEndian16(s: seq<uint8>, i: nat, n: int)
    requires i + 2 <= |s|
  {
    s[i] as int * 256 + s[i + 1] as int == n
  }

  predicate BigEndian32(s: seq<uint8>, i: nat, n: int)
    requires i + 4 <= |s|
  {
    s[i] as int * 16777216 + s[i + 1] as int * 65536 + s[i + 2] as int * 256 + s[i + 3] as int == n
  }

  lemma IsBigEndian(s: seq<uint8>, i: nat)
    requires i + 4 <= |s|
    ensures BigEndian32(s, i, At32(s, i) as int)
  {
  }

  lemma StartsWithIdentifier(h: Header, rest: seq<uint8>)
    ensures var s := EncodeHeader(h) + rest;
            s[0] == 0x00 && s[1] == 0x00 && s[2] == 0x3C && s[3] == 0x51
  {
    AddressFields(h, rest);
    var s := EncodeHeader(h) + rest;
    assert s[0] == s[..4][0] && s[1] == s[..4][1] && s[2] == s[..4][2] && s[3] == s[..4][3];
  }

  /** What is on the wire, byte by byte: the identifier 15441 first, and every field at its offset with its most
      significant byte first. */
  lemma HeaderFields(h: Header, rest: seq<uint8>)
    ensures var s := EncodeHeader(h) + rest;
            && s[0] == 0x00 && s[1] == 0x00 && s[2] == 0x3C && s[3] == 0x51
            && BigEndian16(s, 4, h.src as int) && BigEndian16(s, 6, h.dst as int)
            && BigEndian32(s, 8, h.seqNum as int) && BigEndian32(s, 12, h.ackNum as int)
            && BigEndian16(s, 16, h.hlen as int) && BigEndian16(s, 18, h.plen as int)
            && s[20] == h.flags
            && BigEndian16(s, 21, h.window as int) && BigEndian16(s, 23, h.extLen as int)
  {
    var s := EncodeHeader(h) + rest;
    StartsWithIdentifier(h, rest);
    DecodeEncode(h, rest);
    IsBigEndian(s, 8);
    IsBigEndian(s, 12);
  }

  /** Decoding an encoded header returns every field, whatever follows it. */
  lemma DecodeEncode(h: Header, rest: seq<uint8>)
    ensures DecodeHeader(EncodeHeader(h) + rest) == h
  {
    var s := EncodeHeader(h) + rest;
    FieldSlices(h, rest);
    At16Slice(s, 4, h.src as nat);
    At16Slice(s, 6, h.dst as nat);
    At32Slice(s, 8, h.seqNum as nat);
    At32Slice(s, 12, h.ackNum as nat);
    At16Slice(s, 16, h.hlen as nat);
    At16Slice(s, 18, h.plen as nat);
    At16Slice(s, 21, h.window as nat);
    At16Slice(s, 23, h.extLen as nat);
  }

  /** A created packet decodes to its header, its payload length and its payload. */
  lemma CreatedDecodes(h: Header, payload: seq<uint8>)
    requires Describes(h, payload)
    ensures var pkt := EncodeHeader(h) + payload;
            && WellFormed(pkt) && DecodeHeader(pkt) == h
            && GetPayloadLen(pkt) as int == |payload| && GetPayload(pkt) == payload
  {
    DecodeEncode(h, payload);
    FieldSlices(h, payload);
    assert (EncodeHeader(h) + payload)[HEADER_LEN..] == payload;
  }

  lemma EncodesAddresses(pkt: seq<uint8>)
    requires HEADER_LEN <= |pkt|
    ensures Be16(At16(pkt, 4) as nat) == pkt[4..6] && Be16(At16(pkt, 6) as nat) == pkt[6..8]
    ensures Be32(At32(pkt, 8) as nat) == pkt[8..12] && Be32(At32(pkt, 12) as nat) == pkt[12..16]
  {
    At16RoundTrip(pkt, 4);
    At16RoundTrip(pkt, 6);
    At32RoundTrip(pkt, 8);
    At32RoundTrip(pkt, 12);
  }

  lemma EncodesLengths(pkt: seq<uint8>)
    requires HEADER_LEN <= |pkt|
    ensures Be16(At16(pkt, 16) as nat) == pkt[16..18] && Be16(At16(pkt, 18) as nat) == pkt[18..20]
    ensures Be16(At16(pkt, 21) as nat) == pkt[21..23] && Be16(At16(pkt, 23) as nat) == pkt[23..25]
  {
    At16RoundTrip(pkt, 16);
    At16RoundTrip(pkt, 18);
    At16RoundTrip(pkt, 21);
    At16RoundTrip(pkt, 23);
  }

  lemma EncodesHeader(pkt: seq<uint8>)
    requires HEADER_LEN <= |pkt| && pkt[..4] == Be32(IDENTIFIER)
    ensures EncodeHeader(DecodeHeader(pkt)) == pkt[..HEADER_LEN]
  {
    EncodesAddresses(pkt);
    EncodesLengths(pkt);
    Fields(pkt);
  }

  /** Encoding what was decoded from a well-formed packet gives back the same bytes. */
  lemma EncodeDecode(pkt: seq<uint8>)
    requires WellFormed(pkt)
    ensures EncodeHeader(DecodeHeader(pkt)) + GetPayload(pkt) == pkt
  {
    EncodesHeader(pkt);
    assert GetPayload(pkt) == pkt[HEADER_LEN..];
  }

  lemma Fields(s: seq<uint8>)
    requires 25 <= |s|
    ensures s[..25] == s[..4] + s[4..6] + s[6..8] + s[8..12] + s[12..16] + s[16..18] + s[18..20] + [s[20]]
                     + s[21..23] + s[23..25]
  {
  }

  /** Writes `data` at `at`, extending a prefix already written. */
  method Put(pkt: array<uint8>, at: nat, data: seq<uint8>)
    requires at + |data| <= pkt.Length
    modifies pkt
    ensures pkt[..at + |data|] == old(pkt[..at]) + data
  {
    forall i | 0 <= i < |data| {
      pkt[at + i] := data[i];
    }
  }

  method SetFront(pkt: array<uint8>, h: Header)
    requires HEADER_LEN <= pkt.Length
    modifies pkt
    ensures pkt[..16] == EncodeFront(h)
  {
    Put(pkt, 0, Be32(IDENTIFIER));
    Put(pkt, 4, Be16(h.src as nat));
    Put(pkt, 6, Be16(h.dst as nat));
    Put(pkt, 8, Be32(h.seqNum as nat));
    Put(pkt, 12, Be32(h.ackNum as nat));
  }

  /** Writes the header, and the extension data that follows it. */
  method SetHeader(pkt: array<uint8>, h: Header, ext: seq<uint8>)
    requires |ext| == h.extLen as int && HEADER_LEN + |ext| <= pkt.Length
    modifies pkt
    ensures pkt[..HEADER_LEN + |ext|] == EncodeHeader(h) + ext
  {
    SetFront(pkt, h);
    Put(pkt, 16, Be16(h.hlen as nat));
    Put(pkt, 18, Be16(h.plen as nat));
    Put(pkt, 20, [h.flags]);
    Put(pkt, 21, Be16(h.window as nat));
    Put(pkt, 23, Be16(h.extLen as nat));
    Put(pkt, HEADER_LEN, ext);
  }

  /** Refuses a header length below 25 or a packet length below the header length. */
  method CreatePacket(h: Header, payload: seq<uint8>) returns (pkt: array?<uint8>)
    requires h.extLen == 0
    ensures pkt == null <==> h.hlen as int < HEADER_LEN || h.plen < h.hlen
    ensures pkt != null ==> fresh(pkt) && pkt[..] == EncodeHeader(h) + payload
  {
    if h.hlen as int < HEADER_LEN || h.plen < h.hlen {
      return null;
    }
    var packet := new uint8[HEADER_LEN + |payload|];
    SetHeader(packet, h, []);
    Put(packet, HEADER_LEN, payload);
    assert packet[..] == packet[..HEADER_LEN + |payload|];
    pkt := packet;
  }

  const SYN_FLAG_MASK := 0x8
  const ACK_FLAG_MASK := 0x4
  const FIN_FLAG_MASK := 0x2

  /** A packet as the protocol sees it. */
  datatype Packet = Packet(seqNum: int, ackNum: int, syn: bool, ack: bool, fin: bool, window: int,
                           payload: seq<uint8>) {

    /** Every field lies within its wire width. */
    predicate Fits() {
      && 0 <= seqNum < TWO_32 && 0 <= ackNum < TWO_32 && 0 <= window < 0x1_0000
      && HEADER_LEN + |payload| < 0x1_0000
    }
  }

  function Flags(p: Packet): uint8 {
    (if p.syn then 0x8 else 0) + (if p.ack then 0x4 else 0) + (if p.fin then 0x2 else 0)
  }

  /** `flags & mask`, for a mask of one bit. */
  predicate Flag(flags: uint8, mask: nat)
    requires 0 < mask
  {
    (flags as int / mask) % 2 == 1
  }

  /** The arguments the backend passes to create_packet. */
  function HeaderOf(src: uint16, dst: uint16, p: Packet): Header
    requires p.Fits()
  {
    Header(src, dst, p.seqNum as uint32, p.ackNum as uint32, HEADER_LEN as uint16,
           (HEADER_LEN + |p.payload|) as uint16, Flags(p), p.window as uint16, 0)
  }

  function ToWire(src: uint16, dst: uint16, p: Packet): seq<uint8>
    requires p.Fits()
  {
    EncodeHeader(HeaderOf(src, dst, p)) + p.payload
  }

  /** The packet a backend sends: lengths, flag bits and window as literal numbers, then the payload. */
  lemma WireBytes(src: uint16, dst: uint16, p: Packet)
    requires p.Fits()
    ensures var s := ToWire(src, dst, p);
            && |s| == 25 + |p.payload| && s[25..] == p.payload
            && s[2] == 0x3C && s[3] == 0x51
            && BigEndian16(s, 4, src as int) && BigEndian16(s, 6, dst as int)
            && BigEndian32(s, 8, p.seqNum) && BigEndian32(s, 12, p.ackNum)
            && BigEndian16(s, 16, 25) && BigEndian16(s, 18, 25 + |p.payload|)
            && BigEndian16(s, 21, p.window) && BigEndian16(s, 23, 0)
    ensures var f := ToWire(src, dst, p)[20] as int;
            f == (if p.syn then 8 else 0) + (if p.ack then 4 else 0) + (if p.fin then 2 else 0)
  {
    HeaderFields(HeaderOf(src, dst, p), p.payload);
    assert ToWire(src, dst, p)[HEADER_LEN..] == p.payload;
  }

  /** What the receiving backend reads from a packet. */
  function FromWire(pkt: seq<uint8>): Packet
    requires WellFormed(pkt)
  {
    var h := DecodeHeader(pkt);
    Packet(h.seqNum as int, h.ackNum as int, Flag(h.flags, SYN_FLAG_MASK), Flag(h.flags, ACK_FLAG_MASK),
           Flag(h.flags, FIN_FLAG_MASK), h.window as int, GetPayload(pkt))
  }

  /** The wire carries the whole packet: the receiver sees exactly what the sender meant. */
  lemma WireRoundTrip(src: uint16, dst: uint16, p: Packet)
    requires p.Fits()
    ensures WellFormed(ToWire(src, dst, p)) && FromWire(ToWire(src, dst, p)) == p
  {
    CreatedDecodes(HeaderOf(src, dst, p), p.payload);
  }

  /** The C difference of two uint32, modulo 2^32. */
  function Sub32(a: uint32, b: uint32): uint32 {
    ((a as int - b as int) % TWO_32) as uint32
  }

  /** Whether the difference is negative when read as an int32. */
  predicate Before(seq1: uint32, seq2: uint32) {
    Sub32(seq1, seq2) as int >= TWO_31
  }

  predicate After(seq1: uint32, seq2: uint32) {
    Before(seq2, seq1)
  }

  predicate Between(n: uint32, low: uint32, high: uint32) {
    Sub32(high, low) >= Sub32(n, low)
  }

  function Wrap32(n: int): uint32 {
    (n % TWO_32) as uint32
  }

  /** On true numbers less than 2^31 apart the wrapped comparison is the true order; at 2^31 exactly each
      number is before the other. */
  lemma BeforeIsOrder(x: int, y: int)
    requires -TWO_31 <= x - y <= TWO_31
    ensures Before(Wrap32(x), Wrap32(y)) <==> x < y || x - y == TWO_31
    ensures After(Wrap32(x), Wrap32(y)) <==> y < x || y - x == TWO_31
  {
  }

  /** The wrapped difference of two true numbers less than 2^32 apart is their difference. */
  lemma Sub32Is(x: int, low: int)
    requires 0 <= x - low < TWO_32
    ensures Sub32(Wrap32(x), Wrap32(low)) as int == x - low
  {
  }

  lemma Sub32Back(n: uint32, low: int)
    ensures Wrap32(low + Sub32(n, Wrap32(low)) as int) == n
  {
  }

  /** A wrapped number is between two bounds less than 2^32 apart exactly when one of the true numbers it
      may stand for is. */
  lemma BetweenIsOrder(n: uint32, low: int, high: int)
    requires 0 <= high - low < TWO_32
    ensures Between(n, Wrap32(low), Wrap32(high)) <==> exists x :: Wrap32(x) == n && low <= x <= high
  {
    Sub32Is(high, low);
    if Between(n, Wrap32(low), Wrap32(high)) {
      Sub32Back(n, low);
      assert low <= low + Sub32(n, Wrap32(low)) as int <= high;
    }
    if x :| Wrap32(x) == n && low <= x <= high {
      Sub32Is(x, low);
    }
  }
}
