/** The decoded packet as the flow engine sees it, and the header lookups it performs.

    A packet may carry an IPv4 header, an IPv6 header, a TCP header and a UDP header,
    each optional. The engine looks for IPv4 before IPv6 and for TCP before UDP. Sizes
    are abstract fields: computing them is the decoder's business. */
module Packets {
  import opened Wrappers

  type Address = string

  /** An (address, port) pair identifying one side of a flow. */
  type Endpoint = (Address, int)

  datatype Proto = TCP | UDP

  /** TCP control bits, as in section 3.1 of RFC 793. */
  const FIN: bv16 := 0x01
  const SYN: bv16 := 0x02
  const RST: bv16 := 0x04
  const PSH: bv16 := 0x08
  const ACK: bv16 := 0x10

  datatype NetHeader = NetHeader(src: Address, dst: Address)
  datatype TcpHeader = TcpHeader(sport: int, dport: int, flags: bv16, seqNum: int, ackNum: int)
  datatype UdpHeader = UdpHeader(sport: int, dport: int)

  /** One decoded packet. `outerSrc` is the source address of the outermost layer
      that has one (the Ethernet source on an Ethernet capture): that is what the
      attribute `src` of a whole packet resolves to. */
  datatype Packet = Packet(
    time: real,
    outerSrc: Address,
    ip: Option<NetHeader>,
    ipv6: Option<NetHeader>,
    tcp: Option<TcpHeader>,
    udp: Option<UdpHeader>,
    size: int,
    headerSize: int)

  predicate HasFlag(flags: bv16, bit: bv16) {
    flags & bit != 0
  }

  /** The network header the engine uses: IPv4 if present, else IPv6. */
  function Network(p: Packet): (r: Option<NetHeader>)
    ensures r.None? <==> p.ip.None? && p.ipv6.None?
    ensures p.ip.Some? ==> r == p.ip
    ensures p.ip.None? ==> r == p.ipv6
  {
    if p.ip.Some? then p.ip else p.ipv6
  }

  /** The transport protocol the engine uses: TCP if present, else UDP. */
  function Transport(p: Packet): (r: Option<Proto>)
    ensures r.None? <==> p.tcp.None? && p.udp.None?
    ensures r == Some(TCP) <==> p.tcp.Some?
  {
    if p.tcp.Some? then Some(TCP) else if p.udp.Some? then Some(UDP) else None
  }

  /** A packet from which a flow key can be read. */
  predicate Routable(p: Packet) {
    Network(p).Some? && Transport(p).Some?
  }

  /** The packet carries a network header and the transport header of `proto`. */
  predicate Carries(p: Packet, proto: Proto) {
    Network(p).Some? && (if proto == TCP then p.tcp.Some? else p.udp.Some?)
  }

  function ProtoOf(p: Packet): Proto
    requires Routable(p)
  {
    Transport(p).value
  }

  function SrcOf(p: Packet): Endpoint
    requires Routable(p)
  {
    (Network(p).value.src, if p.tcp.Some? then p.tcp.value.sport else p.udp.value.sport)
  }

  function DstOf(p: Packet): Endpoint
    requires Routable(p)
  {
    (Network(p).value.dst, if p.tcp.Some? then p.tcp.value.dport else p.udp.value.dport)
  }

  datatype HeaderError = MissingNetworkHeader | MissingTransportHeader

  /** The flow key of a packet: protocol, source endpoint, destination endpoint. */
  datatype FlowKey = FlowKey(proto: Proto, src: Endpoint, dst: Endpoint)

  /** Reads the flow key of a packet, reporting which header is missing. The network
      header is looked for first, so a packet missing both reports the network one. */
  function ParseKey(p: Packet): (r: Result<FlowKey, HeaderError>)
    ensures r.Success? <==> Routable(p)
    ensures r.Failure? ==> (r.error == MissingNetworkHeader <==> Network(p).None?)
    ensures r.Success? ==> (r.value.proto == TCP <==> p.tcp.Some?)
    ensures r.Success? ==> r.value.src.0 == Network(p).value.src && r.value.dst.0 == Network(p).value.dst
    ensures r.Success? ==> r.value.src.1 == (if p.tcp.Some? then p.tcp.value.sport else p.udp.value.sport)
    ensures r.Success? ==> r.value.dst.1 == (if p.tcp.Some? then p.tcp.value.dport else p.udp.value.dport)
  {
    if Network(p).None? then Failure(MissingNetworkHeader)
    else if Transport(p).None? then Failure(MissingTransportHeader)
    else Success(FlowKey(ProtoOf(p), SrcOf(p), DstOf(p)))
  }

  // ---------------------------------------------------------------------------
  // The header lookups as written in the flow constructor
  // ---------------------------------------------------------------------------

  /** The exceptions the lookups can raise. */
  datatype Raised = IndexError | ValueError

  /** `packet[Layer]`: the layer, or IndexError when the packet has none. */
  function LayerOf<T>(h: Option<T>): (r: Result<T, Raised>)
    ensures r.Success? <==> h.Some?
    ensures r.Success? ==> r.value == h.value
    ensures r.Failure? ==> r.error == IndexError
  {
    if h.Some? then Success(h.value) else Failure(IndexError)
  }

  /** A lookup of layer `a` whose IndexError handler looks up layer `b`, followed by a
      bare handler that raises ValueError. The second lookup runs inside the first
      handler, so its IndexError leaves the try statement: the bare handler only sees
      what the first lookup raises besides IndexError, which is nothing. */
  function TryEither<T>(a: Option<T>, b: Option<T>): (r: Result<T, Raised>)
    ensures r.Failure? ==> r.error == IndexError
  {
    if LayerOf(a).Success? then LayerOf(a) else LayerOf(b)
  }

  /** The flow key as the flow constructor reads it: IPv4 then IPv6, TCP then UDP.
      A packet without a network or a transport header raises IndexError, never the
      ValueError the constructor announces for that case. */
  function KeyAsWritten(p: Packet): (r: Result<FlowKey, Raised>)
    ensures r.Success? <==> Routable(p)
    ensures r.Success? ==> ParseKey(p) == Success(r.value)
    ensures r.Failure? ==> r.error == IndexError
  {
    var net := TryEither(p.ip, p.ipv6);
    var proto := TryEither(if p.tcp.Some? then Some(TCP) else None, if p.udp.Some? then Some(UDP) else None);
    if net.Failure? then Failure(net.error)
    else if proto.Failure? then Failure(proto.error)
    else Success(FlowKey(proto.value, SrcOf(p), DstOf(p)))
  }

  /** The only exception the packet-adding operation of the registry catches. */
  predicate CaughtOnAdd(e: Raised) {
    e == ValueError
  }

  /** A TCP segment captured without an IP or IPv6 header passes the TCP-or-UDP
      filter of populating, and reading its key raises an exception that the
      packet-adding operation does not catch: populating stops with IndexError
      instead of skipping the packet. */
  lemma TcpWithoutIpEscapes()
    ensures var p := Packet(0.0, "02:00:00:00:00:01", None, None, Some(TcpHeader(1000, 80, SYN, 0, 0)), None, 54, 54);
      && (p.tcp.Some? || p.udp.Some?)
      && KeyAsWritten(p).Failure? && !CaughtOnAdd(KeyAsWritten(p).error)
      && ParseKey(p) == Failure(MissingNetworkHeader)
  {
  }
}
