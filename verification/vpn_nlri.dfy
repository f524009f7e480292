/** The BGP structures the IP-VPN instance builds and reads, as plain values:
    an IPv4 prefix, a route distinguisher, an MPLS label-stack entry and the
    labelled VPN prefix that combines them (section 4.3.4 of RFC 4364).
    The byte layouts of the route distinguisher (section 4.2 of RFC 4364)
    and of the label-stack entry as carried in BGP (section 2.1 of RFC 3032,
    without the TTL octet) are given with their decoders, so that the bounds
    on their fields have a meaning. */
module VpnNlri {
  import opened Wrappers
  import opened Inet

  const AFI_IPV4: nat := 1
  const SAFI_MPLS_VPN: nat := 128

  /** Labels are 20-bit values. */
  const LABEL_LIMIT: nat := 0x10_0000
  /** The assigned-number field of a type 1 route distinguisher is 16 bits. */
  const ASSIGNED_NUMBER_LIMIT: nat := 0x1_0000
  /** Type field of a route distinguisher made of an IPv4 address and a local number. */
  const RD_TYPE_IP_LOC: nat := 1

  datatype Prefix = Prefix(afi: nat, address: IPv4Address, length: nat)

  datatype RouteDistinguisher = IpLoc(ip: IPv4Address, number: nat)

  datatype LabelStackEntry = LabelStackEntry(labelValue: nat, bottomOfStack: bool)

  /** The network-layer reachability information of a received route: a
      labelled VPN prefix, or some other family this instance must refuse. */
  datatype Nlri =
    | VpnLabelledPrefix(afi: nat, safi: nat, prefix: Prefix, rd: RouteDistinguisher, labelStack: seq<LabelStackEntry>)
    | OtherNlri(family: string)

  /** Eight octets: type 1, the four address octets, the assigned number. */
  function EncodeRD(rd: RouteDistinguisher): (b: seq<Octet>)
    requires rd.number < ASSIGNED_NUMBER_LIMIT
    ensures |b| == 8
  {
    [0, RD_TYPE_IP_LOC, rd.ip.o0, rd.ip.o1, rd.ip.o2, rd.ip.o3, rd.number / 256, rd.number % 256]
  }

  function DecodeRD(b: seq<Octet>): Option<RouteDistinguisher> {
    if |b| == 8 && b[0] as int * 256 + b[1] == RD_TYPE_IP_LOC
    then Some(IpLoc(IPv4Address(b[2], b[3], b[4], b[5]), b[6] as int * 256 + b[7]))
    else None
  }

  lemma RDRoundTrip(rd: RouteDistinguisher)
    requires rd.number < ASSIGNED_NUMBER_LIMIT
    ensures DecodeRD(EncodeRD(rd)) == Some(rd)
  {
  }

  /** Three octets holding the label in the top 20 bits, three zero
      traffic-class bits and the bottom-of-stack bit. */
  function EncodeLabel(e: LabelStackEntry): (b: seq<Octet>)
    requires e.labelValue < LABEL_LIMIT
    ensures |b| == 3
  {
    var v := e.labelValue * 16 + (if e.bottomOfStack then 1 else 0);
    [v / 0x1_0000, (v / 0x100) % 0x100, v % 0x100]
  }

  function DecodeLabel(b: seq<Octet>): Option<LabelStackEntry> {
    if |b| == 3 then
      var v := b[0] as int * 0x1_0000 + b[1] as int * 0x100 + b[2];
      Some(LabelStackEntry(v / 16, v % 2 == 1))
    else None
  }

  lemma LabelRoundTrip(e: LabelStackEntry)
    requires e.labelValue < LABEL_LIMIT
    ensures DecodeLabel(EncodeLabel(e)) == Some(e)
    ensures EncodeLabel(e)[2] % 2 == 1 <==> e.bottomOfStack
  {
    var v := e.labelValue * 16 + (if e.bottomOfStack then 1 else 0);
    var b := EncodeLabel(e);
    assert b[0] as int * 0x1_0000 + b[1] as int * 0x100 + b[2] == v;
  }
}
