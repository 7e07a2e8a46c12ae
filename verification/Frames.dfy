/** Decoding a captured frame: link layer, IPv4 header (section 3.1 of RFC 791), then a TCP
    header (section 3.1 of RFC 9293) or a UDP header (RFC 768) (src/sniffer.c). */
module Frames {
  import opened Common

  type Byte = x: int | 0 <= x < 256

  const ARPHRD_ETHER := 1
  const ARPHRD_LOOPBACK := 772
  const ETH_HEADER: nat := 14
  const ETH_P_IP := 0x0800
  const IP_HEADER: nat := 20
  const TCP_HEADER: nat := 20
  const UDP_HEADER: nat := 8
  const IPPROTO_TCP := 6
  const IPPROTO_UDP := 17
  const IP_OFFMASK := 0x1FFF

  // ---------- fields, in network byte order ----------

  function U16(b: seq<Byte>, i: nat): Port
    requires i + 2 <= |b|
  {
    b[i] as int * 256 + b[i + 1]
  }

  function U32(b: seq<Byte>, i: nat): Address
    requires i + 4 <= |b|
  {
    b[i] as int * 0x100_0000 + b[i + 1] as int * 0x1_0000 + b[i + 2] as int * 256 + b[i + 3]
  }

  predicate HasLinkHeader(hatype: int) {
    hatype == ARPHRD_ETHER || hatype == ARPHRD_LOOPBACK
  }

  // ---------- the decoder ----------

  /** Where the IP header starts, if this is a frame that can be parsed. */
  function IpOffset(buf: seq<Byte>, hatype: int): (r: Option<nat>)
    ensures r.Some? ==> r.value + IP_HEADER <= |buf|
  {
    if HasLinkHeader(hatype) && (|buf| < ETH_HEADER || U16(buf, 12) != ETH_P_IP) then None
    else
      var off := if HasLinkHeader(hatype) then ETH_HEADER else 0;
      if |buf| < off + IP_HEADER then None
      else if buf[off] / 16 != 4 || buf[off] % 16 < 5 then None
      else Some(off)
  }

  predicate IsKnockPort(ports: seq<Port>, p: Port) {
    exists i :: 0 <= i < |ports| && ports[i] == p
  }

  predicate SynOnly(flags: Byte) {
    (flags / 2) % 2 == 1 && (flags / 16) % 2 == 0
  }

  /** The port a layer-4 header at l4 knocks on, if it is a complete knock. */
  function KnockedPort(buf: seq<Byte>, protocol: Byte, l4: nat): Option<Port> {
    if protocol == IPPROTO_TCP then
      if |buf| < l4 + TCP_HEADER then None
      else if !SynOnly(buf[l4 + 13]) then None
      else Some(U16(buf, l4 + 2))
    else if protocol == IPPROTO_UDP then
      if |buf| < l4 + UDP_HEADER then None else Some(U16(buf, l4 + 2))
    else None
  }

  /** The knock in the received bytes buf, if there is one. */
  function Decode(buf: seq<Byte>, hatype: int, ports: seq<Port>): Option<KnockEvent> {
    match IpOffset(buf, hatype)
    case None => None
    case Some(off) =>
      var headerLen := (buf[off] % 16) * 4;
      if off + headerLen > |buf| then None
      else if U16(buf, off + 6) % (IP_OFFMASK + 1) != 0 then None
      else
        match KnockedPort(buf, buf[off + 9], off + headerLen)
        case None => None
        case Some(port) =>
          if IsKnockPort(ports, port) then Some(KnockEvent(U32(buf, off + 12), port)) else None
  }

  // ---------- the frames that are knocks ----------

  /** The control bits of a TCP header, from the lowest up. */
  datatype Flags = Flags(fin: bool, syn: bool, rst: bool, psh: bool, ack: bool, urg: bool, ece: bool, cwr: bool)

  /** One bit below the others. */
  function Below(b: bool, rest: nat): (r: nat)
    ensures r <= 2 * rest + 1
  {
    (if b then 1 else 0) + 2 * rest
  }

  function FlagByte(f: Flags): Byte {
    Below(f.fin, Below(f.syn, Below(f.rst, Below(f.psh, Below(f.ack, Below(f.urg, Below(f.ece, Below(f.cwr, 0))))))))
  }

  function FlagsOf(x: Byte): Flags {
    var x1 := x / 2;
    var x2 := x1 / 2;
    var x3 := x2 / 2;
    var x4 := x3 / 2;
    var x5 := x4 / 2;
    var x6 := x5 / 2;
    Flags(x % 2 == 1, x1 % 2 == 1, x2 % 2 == 1, x3 % 2 == 1, x4 % 2 == 1, x5 % 2 == 1, x6 % 2 == 1, x6 / 2 % 2 == 1)
  }

  /** The transport header of a knock: a TCP SYN without ACK, or any UDP header. */
  datatype Transport =
    | Tcp(srcPort: Port, dstPort: Port, numbers: seq<Byte>, flags: Flags, rest: seq<Byte>)
    | Udp(srcPort: Port, dstPort: Port, rest: seq<Byte>)

  /** An unfragmented or first-fragment IPv4 packet that carries one. */
  datatype Packet = Packet(
    link: seq<Byte>,
    head: seq<Byte>,
    fragFlags: int,
    ttl: Byte,
    checksum: seq<Byte>,
    src: Address,
    dst: Address,
    options: seq<Byte>,
    transport: Transport,
    payload: seq<Byte>)

  ghost predicate WellFormed(p: Packet) {
    && |p.head| == 5 && 0 <= p.fragFlags < 8 && |p.checksum| == 2
    && |p.options| % 4 == 0 && |p.options| <= 40
    && CompleteHeader(p.transport)
  }

  ghost predicate CompleteHeader(t: Transport) {
    match t
    case Tcp(_, _, numbers, flags, rest) => |numbers| == 9 && flags.syn && !flags.ack && |rest| == 6
    case Udp(_, _, rest) => |rest| == 4
  }

  /** The link header an interface of this type puts in front. */
  predicate LinkFits(link: seq<Byte>, hatype: int) {
    if HasLinkHeader(hatype) then |link| == ETH_HEADER && U16(link, 12) == ETH_P_IP else link == []
  }

  function Bytes16(x: Port): seq<Byte> {
    [x / 256, x % 256]
  }

  function Bytes32(x: Address): seq<Byte> {
    [x / 0x100_0000, x / 0x1_0000 % 256, x / 256 % 256, x % 256]
  }

  ghost function EncodeIp(p: Packet): seq<Byte>
    requires WellFormed(p)
  {
    [64 + 5 + |p.options| / 4] + p.head
    + [p.fragFlags * 32, 0, p.ttl, if p.transport.Tcp? then IPPROTO_TCP else IPPROTO_UDP] + p.checksum
    + Bytes32(p.src) + Bytes32(p.dst) + p.options
  }

  function EncodeTransport(t: Transport): seq<Byte> {
    match t
    case Tcp(srcPort, dstPort, numbers, flags, rest) => Bytes16(srcPort) + Bytes16(dstPort) + numbers + [FlagByte(flags)] + rest
    case Udp(srcPort, dstPort, rest) => Bytes16(srcPort) + Bytes16(dstPort) + rest
  }

  ghost function Encode(p: Packet): seq<Byte>
    requires WellFormed(p)
  {
    p.link + (EncodeIp(p) + (EncodeTransport(p.transport) + p.payload))
  }

  // ---------- every such frame decodes ----------

  /** part lies in buf from index off on. */
  ghost predicate Holds(buf: seq<Byte>, off: nat, part: seq<Byte>) {
    off + |part| <= |buf| && forall i :: 0 <= i < |part| ==> buf[off + i] == part[i]
  }

  lemma U32Inverse(x: Address)
    ensures U32(Bytes32(x), 0) == x
  {
    assert x / 0x1_0000 == x / 256 / 256;
    assert x / 0x100_0000 == x / 256 / 256 / 256;
  }

  lemma IpFields(p: Packet)
    requires WellFormed(p)
    ensures var b := EncodeIp(p);
            && |b| == IP_HEADER + |p.options|
            && b[0] == 69 + |p.options| / 4
            && b[6] == p.fragFlags * 32 && b[7] == 0
            && b[9] == (if p.transport.Tcp? then IPPROTO_TCP else IPPROTO_UDP)
            && b[12..16] == Bytes32(p.src)
  {
  }

  lemma TransportFields(p: Packet)
    requires WellFormed(p)
    ensures var t, b := p.transport, EncodeTransport(p.transport);
            && |b| == (if t.Tcp? then TCP_HEADER else UDP_HEADER)
            && U16(b, 2) == t.dstPort
            && (t.Tcp? ==> b[13] == FlagByte(t.flags))
  {
  }

  lemma EncodeHolds(p: Packet)
    requires WellFormed(p)
    ensures var n := |p.link|;
            && Holds(Encode(p), 0, p.link)
            && Holds(Encode(p), n, EncodeIp(p))
            && Holds(Encode(p), n + |EncodeIp(p)|, EncodeTransport(p.transport))
  {
    hide EncodeIp, EncodeTransport;
    var ip, tp := EncodeIp(p), EncodeTransport(p.transport);
    assert p.link + (ip + (tp + p.payload)) == [] + (p.link + (ip + (tp + p.payload)));
    HoldsMiddle([], p.link, ip + (tp + p.payload));
    HoldsMiddle(p.link, ip, tp + p.payload);
    assert p.link + (ip + (tp + p.payload)) == (p.link + ip) + (tp + p.payload);
    HoldsMiddle(p.link + ip, tp, p.payload);
  }

  lemma HoldsMiddle(a: seq<Byte>, b: seq<Byte>, c: seq<Byte>)
    ensures Holds(a + (b + c), |a|, b)
  {
    var s := a + (b + c);
    assert forall i :: 0 <= i < |b| ==> s[|a| + i] == (b + c)[i] == b[i];
  }

  /** The byte test for a connection attempt is: SYN set, ACK clear. */
  lemma SynTest(f: Flags)
    ensures SynOnly(FlagByte(f)) <==> f.syn && !f.ack
  {
    hide Below;
    var fromAck := Below(f.ack, Below(f.urg, Below(f.ece, Below(f.cwr, 0))));
    var fromRst := Below(f.rst, Below(f.psh, fromAck));
    SplitBit(f.fin, Below(f.syn, fromRst));
    SplitBit(f.syn, fromRst);
    SplitBit(f.rst, Below(f.psh, fromAck));
    SplitBit(f.psh, fromAck);
    SplitBit(f.ack, Below(f.urg, Below(f.ece, Below(f.cwr, 0))));
    ShiftFour(FlagByte(f));
  }

  lemma SplitBit(b: bool, rest: nat)
    ensures Below(b, rest) % 2 == (if b then 1 else 0) && Below(b, rest) / 2 == rest
  {
  }

  lemma ShiftFour(x: nat)
    ensures x / 16 == x / 2 / 2 / 2 / 2
  {
  }

  lemma FlagsInverse(x: Byte)
    ensures FlagByte(FlagsOf(x)) == x
  {
    hide Below;
    var x1 := x / 2;
    var x2 := x1 / 2;
    var x3 := x2 / 2;
    var x4 := x3 / 2;
    var x5 := x4 / 2;
    var x6 := x5 / 2;
    LowBit(x, 128);
    LowBit(x1, 64);
    LowBit(x2, 32);
    LowBit(x3, 16);
    LowBit(x4, 8);
    LowBit(x5, 4);
    LowBit(x6, 2);
    LowBit(x6 / 2, 1);
  }

  lemma LowBit(x: nat, half: nat)
    requires x < 2 * half
    ensures Below(x % 2 == 1, x / 2) == x && x / 2 < half
  {
  }

  lemma SourceAt(buf: seq<Byte>, off: nat, ip: seq<Byte>, src: Address)
    requires Holds(buf, off, ip) && |ip| >= IP_HEADER && ip[12..16] == Bytes32(src)
    ensures U32(buf, off + 12) == src
  {
    U32Inverse(src);
    assert forall i :: 0 <= i < 4 ==> ip[12..16][i] == ip[12 + i];
    assert buf[off + 12] == ip[12] && buf[off + 13] == ip[13] && buf[off + 14] == ip[14] && buf[off + 15] == ip[15];
    assert ip[12] == Bytes32(src)[0] && ip[13] == Bytes32(src)[1] && ip[14] == Bytes32(src)[2] && ip[15] == Bytes32(src)[3];
  }

  /** Encoding a knock with any header length from 20 to 60 bytes, behind any link header,
      and decoding it gives back its source and its port. */
  lemma DecodeEncode(p: Packet, hatype: int, ports: seq<Port>)
    requires WellFormed(p) && LinkFits(p.link, hatype) && IsKnockPort(ports, p.transport.dstPort)
    ensures Decode(Encode(p), hatype, ports) == Some(KnockEvent(p.src, p.transport.dstPort))
  {
    hide Encode, EncodeIp, EncodeTransport, U32, Bytes32, SynOnly, FlagByte;
    var buf, ip, tp, off := Encode(p), EncodeIp(p), EncodeTransport(p.transport), |p.link|;
    IpFields(p);
    TransportFields(p);
    EncodeHolds(p);
    SourceAt(buf, off, ip, p.src);
    assert buf[off] == ip[0] && buf[off + 6] == ip[6] && buf[off + 7] == ip[7] && buf[off + 9] == ip[9];
    var l4 := off + |ip|;
    assert buf[l4 + 2] == tp[2] && buf[l4 + 3] == tp[3];
    assert p.transport.Tcp? ==> buf[l4 + 13] == tp[13];
    if HasLinkHeader(hatype) {
      assert buf[12] == p.link[12] && buf[13] == p.link[13];
    }
    FirstFragment(ip[6], ip[7]);
    if p.transport.Tcp? {
      SynTest(p.transport.flags);
    }
  }

  /** The fragment offset is zero exactly when its 13 bits are. */
  lemma FirstFragment(x: Byte, y: Byte)
    ensures (x as int * 256 + y) % (IP_OFFMASK + 1) == 0 <==> x % 32 == 0 && y == 0
  {
    var q, r := x / 32, x % 32;
    assert x as int * 256 + y == 8192 * q + (256 * r + y);
  }

  // ---------- and nothing else does ----------

  lemma Bytes16Inverse(b: seq<Byte>, i: nat)
    requires i + 2 <= |b|
    ensures Bytes16(U16(b, i)) == b[i..i + 2]
  {
  }

  lemma Bytes32Inverse(b: seq<Byte>, i: nat)
    requires i + 4 <= |b|
    ensures Bytes32(U32(b, i)) == b[i..i + 4]
  {
    var x := U32(b, i);
    assert x / 256 == b[i] as int * 0x1_0000 + b[i + 1] as int * 256 + b[i + 2];
    assert x / 0x1_0000 == b[i] as int * 256 + b[i + 1];
    assert x / 0x100_0000 == b[i];
  }

  /** The fields of a transport header at index l4. */
  function TransportAt(buf: seq<Byte>, protocol: Byte, l4: nat): Transport
    requires KnockedPort(buf, protocol, l4).Some?
  {
    if protocol == IPPROTO_TCP then
      Tcp(U16(buf, l4), U16(buf, l4 + 2), buf[l4 + 4..l4 + 13], FlagsOf(buf[l4 + 13]), buf[l4 + 14..l4 + 20])
    else
      Udp(U16(buf, l4), U16(buf, l4 + 2), buf[l4 + 4..l4 + 8])
  }

  lemma TransportExact(buf: seq<Byte>, protocol: Byte, l4: nat)
    requires KnockedPort(buf, protocol, l4).Some?
    ensures var t := TransportAt(buf, protocol, l4);
            var end := l4 + |EncodeTransport(t)|;
            && CompleteHeader(t)
            && t.dstPort == KnockedPort(buf, protocol, l4).value
            && protocol == (if t.Tcp? then IPPROTO_TCP else IPPROTO_UDP)
            && end <= |buf| && EncodeTransport(t) == buf[l4..end]
  {
    hide FlagByte, FlagsOf, SynOnly, Bytes16, U16;
    Bytes16Inverse(buf, l4);
    Bytes16Inverse(buf, l4 + 2);
    if protocol == IPPROTO_TCP {
      FlagsInverse(buf[l4 + 13]);
      SynTest(FlagsOf(buf[l4 + 13]));
      TcpSlices(buf, l4);
    } else {
      assert buf[l4..l4 + 2] + buf[l4 + 2..l4 + 4] + buf[l4 + 4..l4 + 8] == buf[l4..l4 + 8];
    }
  }

  lemma TcpSlices(b: seq<Byte>, l4: nat)
    requires l4 + TCP_HEADER <= |b|
    ensures b[l4..l4 + 2] + b[l4 + 2..l4 + 4] + b[l4 + 4..l4 + 13] + [b[l4 + 13]] + b[l4 + 14..l4 + 20] == b[l4..l4 + 20]
  {
  }

  /** The packet in a frame that decodes. */
  function PacketAt(buf: seq<Byte>, hatype: int, ports: seq<Port>): Packet
    requires Decode(buf, hatype, ports).Some?
  {
    var off := IpOffset(buf, hatype).value;
    var l4 := off + (buf[off] % 16) * 4;
    var t := TransportAt(buf, buf[off + 9], l4);
    Packet(buf[..off], buf[off + 1..off + 6], buf[off + 6] / 32, buf[off + 8], buf[off + 10..off + 12],
           U32(buf, off + 12), U32(buf, off + 16), buf[off + 20..l4], t, buf[l4 + |EncodeTransport(t)|..])
  }

  lemma HeaderSlices(b: seq<Byte>, off: nat, end: nat)
    requires off + IP_HEADER <= end <= |b|
    ensures [b[off]] + b[off + 1..off + 6] + [b[off + 6], b[off + 7], b[off + 8], b[off + 9]] + b[off + 10..off + 12]
            + b[off + 12..off + 16] + b[off + 16..off + 20] + b[off + 20..end] == b[off..end]
  {
  }

  lemma IpEncodes(p: Packet, b: seq<Byte>, off: nat, end: nat)
    requires WellFormed(p) && off + IP_HEADER <= end <= |b|
    requires b[off] == 64 + 5 + |p.options| / 4 && b[off + 6] == p.fragFlags * 32 && b[off + 7] == 0
    requires b[off + 8] == p.ttl && b[off + 9] == (if p.transport.Tcp? then IPPROTO_TCP else IPPROTO_UDP)
    requires p.head == b[off + 1..off + 6] && p.checksum == b[off + 10..off + 12]
    requires Bytes32(p.src) == b[off + 12..off + 16] && Bytes32(p.dst) == b[off + 16..off + 20]
    requires p.options == b[off + 20..end]
    ensures EncodeIp(p) == b[off..end]
  {
    hide Bytes32;
    HeaderSlices(b, off, end);
  }

  lemma IpExact(buf: seq<Byte>, hatype: int, ports: seq<Port>)
    requires Decode(buf, hatype, ports).Some?
    ensures var p := PacketAt(buf, hatype, ports);
            var off := IpOffset(buf, hatype).value;
            && WellFormed(p)
            && EncodeIp(p) == buf[off..off + (buf[off] % 16) * 4]
  {
    hide EncodeIp, EncodeTransport, U32, Bytes32, KnockedPort, SynOnly, TransportAt;
    var p := PacketAt(buf, hatype, ports);
    var off := IpOffset(buf, hatype).value;
    var l4 := off + (buf[off] % 16) * 4;
    TransportExact(buf, buf[off + 9], l4);
    Bytes32Inverse(buf, off + 12);
    Bytes32Inverse(buf, off + 16);
    FirstFragment(buf[off + 6], buf[off + 7]);
    IpEncodes(p, buf, off, l4);
  }

  /** Exactness: a frame is reported as a knock of ev if and only if it encodes a
      first-fragment IPv4 packet with a complete TCP SYN or UDP header, from ev's source to
      ev's port, and that port is in the sequence. */
  lemma DecodeExact(buf: seq<Byte>, hatype: int, ports: seq<Port>, ev: KnockEvent)
    ensures Decode(buf, hatype, ports) == Some(ev) <==>
            exists p :: WellFormed(p) && LinkFits(p.link, hatype) && IsKnockPort(ports, p.transport.dstPort)
                     && Encode(p) == buf && ev == KnockEvent(p.src, p.transport.dstPort)
  {
    if Decode(buf, hatype, ports) == Some(ev) {
      var p := PacketAt(buf, hatype, ports);
      PacketExact(buf, hatype, ports);
      assert WellFormed(p);
    }
    forall p | WellFormed(p) && LinkFits(p.link, hatype) && IsKnockPort(ports, p.transport.dstPort)
               && Encode(p) == buf && ev == KnockEvent(p.src, p.transport.dstPort)
      ensures Decode(buf, hatype, ports) == Some(ev)
    {
      DecodeEncode(p, hatype, ports);
    }
  }

  lemma DecodeFields(buf: seq<Byte>, hatype: int, ports: seq<Port>)
    requires Decode(buf, hatype, ports).Some?
    ensures IpOffset(buf, hatype).Some?
    ensures var off := IpOffset(buf, hatype).value;
            var l4 := off + (buf[off] % 16) * 4;
            var port := KnockedPort(buf, buf[off + 9], l4);
            && l4 <= |buf| && port.Some? && IsKnockPort(ports, port.value)
            && Decode(buf, hatype, ports).value == KnockEvent(U32(buf, off + 12), port.value)
  {
    hide KnockedPort, IsKnockPort, U16, U32;
  }

  lemma PacketExact(buf: seq<Byte>, hatype: int, ports: seq<Port>)
    requires Decode(buf, hatype, ports).Some?
    ensures var p := PacketAt(buf, hatype, ports);
            && WellFormed(p) && LinkFits(p.link, hatype) && IsKnockPort(ports, p.transport.dstPort)
            && Encode(p) == buf && Decode(buf, hatype, ports).value == KnockEvent(p.src, p.transport.dstPort)
  {
    hide Decode, IpOffset, IsKnockPort, Encode, EncodeIp, EncodeTransport, U16, U32, KnockedPort, TransportAt, WellFormed,
         CompleteHeader, LinkFits;
    DecodeFields(buf, hatype, ports);
    var p := PacketAt(buf, hatype, ports);
    var off := IpOffset(buf, hatype).value;
    var l4 := off + (buf[off] % 16) * 4;
    LinkExact(buf, hatype);
    IpExact(buf, hatype, ports);
    TransportExact(buf, buf[off + 9], l4);
    FrameGlued(p, buf, off, l4, l4 + |EncodeTransport(p.transport)|);
  }

  lemma FrameGlued(p: Packet, b: seq<Byte>, i: nat, j: nat, k: nat)
    requires WellFormed(p) && i <= j <= k <= |b|
    requires p.link == b[..i] && EncodeIp(p) == b[i..j] && EncodeTransport(p.transport) == b[j..k] && p.payload == b[k..]
    ensures Encode(p) == b
  {
    hide WellFormed, EncodeIp, EncodeTransport;
    assert b[..i] + (b[i..j] + (b[j..k] + b[k..])) == b;
  }

  lemma LinkExact(buf: seq<Byte>, hatype: int)
    requires IpOffset(buf, hatype).Some?
    ensures LinkFits(buf[..IpOffset(buf, hatype).value], hatype)
  {
    var link := buf[..IpOffset(buf, hatype).value];
    assert HasLinkHeader(hatype) ==> link[12] == buf[12] && link[13] == buf[13];
  }
}
