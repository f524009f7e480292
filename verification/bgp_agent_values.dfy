/** The dict-shaped data the BGP VPN agent keeps per attached port and sends
    to the BGP component: values, the route target dicts and their
    arithmetic, and the attach payload builders. */
module AgentValues {
  /** A JSON-like value held in an attachment dict. */
  datatype Value =
    | Null
    | Str(s: string)
    | Int(i: int)
    | Bool(b: bool)
    | List(items: seq<Value>)
    | Dict(fields: map<string, Value>)

  type Details = map<string, Value>

  const PORT_ID := "port_id"
  const VPN_INSTANCE_ID := "vpn_instance_id"
  const VPN_TYPE := "vpn_type"
  const LOCAL_PORT := "local_port"
  const MAC_ADDRESS := "mac_address"
  const IP_ADDRESS := "ip_address"
  const GATEWAY_IP := "gateway_ip"
  const LINUXBR := "linuxbr"
  const EVPN := "evpn"
  const EVPN_BGPVPN := "evpn_bgpvpn"
  const IPVPN_BGPVPN := "ipvpn_bgpvpn"
  const L2VPN := "l2vpn"
  const L3VPN := "l3vpn"
  const IMPORT_RT := "import_rt"
  const EXPORT_RT := "export_rt"

  // ---------------------------------------------------------------------
  // Route target lists

  /** `[x for x in xs if x not in ys]`. */
  function FilterOut(xs: seq<Value>, ys: seq<Value>): (r: seq<Value>)
    ensures |r| <= |xs|
    ensures forall x :: x in r <==> x in xs && x !in ys
  {
    if xs == [] then []
    else (if xs[0] in ys then [] else [xs[0]]) + FilterOut(xs[1..], ys)
  }

  /** Filtering keeps the order of what it keeps: it distributes over
      concatenation. */
  lemma {:induction false} FilterOutConcat(a: seq<Value>, b: seq<Value>, ys: seq<Value>)
    ensures FilterOut(a + b, ys) == FilterOut(a, ys) + FilterOut(b, ys)
  {
    if a != [] {
      assert (a + b)[0] == a[0];
      assert (a + b)[1..] == a[1..] + b;
      FilterOutConcat(a[1..], b, ys);
    } else {
      assert a + b == b;
    }
  }

  /** Filtering out values none of which occur changes nothing. */
  lemma {:induction false} FilterOutDisjoint(xs: seq<Value>, ys: seq<Value>)
    requires forall x :: x in xs ==> x !in ys
    ensures FilterOut(xs, ys) == xs
  {
    if xs != [] {
      assert xs[0] in xs;
      FilterOutDisjoint(xs[1..], ys);
      assert [xs[0]] + xs[1..] == xs;
    }
  }

  /** Filtering out a superset of the values leaves nothing. */
  lemma {:induction false} FilterOutCovered(xs: seq<Value>, ys: seq<Value>)
    requires forall x :: x in xs ==> x in ys
    ensures FilterOut(xs, ys) == []
  {
    if xs != [] {
      assert xs[0] in xs;
      FilterOutCovered(xs[1..], ys);
    }
  }

  /** Both dicts hold lists on every key they share. */
  predicate ListsOnCommonKeys(a: Details, b: Details) {
    forall k :: k in a && k in b ==> a[k].List? && b[k].List?
  }

  /** A route target dict: lists under `import_rt`, `export_rt` and any
      other key. */
  predicate IsRouteTargetDict(v: Value) {
    && v.Dict?
    && IMPORT_RT in v.fields && EXPORT_RT in v.fields
    && forall k :: k in v.fields ==> v.fields[k].List?
  }

  /** `_remove_route_target`: on the keys both dicts have, the first dict's
      route targets without those of the second, in their order. */
  function RemoveRouteTarget(rt1: Details, rt2: Details): (r: Details)
    requires ListsOnCommonKeys(rt1, rt2)
    ensures forall k :: k in r <==> k in rt1 && k in rt2
    ensures forall k :: k in r ==>
      && r[k].List?
      && (forall x :: x in r[k].items <==> x in rt1[k].items && x !in rt2[k].items)
      && |r[k].items| <= |rt1[k].items|
    ensures forall k :: k in r ==> r[k] == List(FilterOut(rt1[k].items, rt2[k].items))
  {
    map k | k in rt1 && k in rt2 :: List(FilterOut(rt1[k].items, rt2[k].items))
  }

  /** `_concatenate_route_target` as written: `list.append` returns None, so
      every shared key maps to None. */
  function ConcatenateRouteTargetAsWritten(rt1: Details, rt2: Details): (r: Details)
    ensures forall k :: k in r <==> k in rt1 && k in rt2
    ensures forall k :: k in r ==> r[k] == Null
  {
    map k | k in rt1 && k in rt2 :: Null
  }

  /** `_concatenate_route_target` as intended: on the keys both dicts have,
      the first dict's route targets followed by the second's. */
  function ConcatenateRouteTarget(rt1: Details, rt2: Details): (r: Details)
    requires ListsOnCommonKeys(rt1, rt2)
    ensures forall k :: k in r <==> k in rt1 && k in rt2
    ensures forall k :: k in r ==>
      && r[k].List?
      && |r[k].items| == |rt1[k].items| + |rt2[k].items|
      && (forall x :: x in r[k].items <==> x in rt1[k].items || x in rt2[k].items)
  {
    map k | k in rt1 && k in rt2 :: List(rt1[k].items + rt2[k].items)
  }

  /** Concatenation as written loses every route target: the first dict's
      targets are gone, not only the second's. */
  lemma ConcatenateAsWrittenLosesRouteTargets()
    ensures var a, b := map[IMPORT_RT := List([Str("64512:1")])], map[IMPORT_RT := List([Str("64512:2")])];
      && ConcatenateRouteTargetAsWritten(a, b) == map[IMPORT_RT := Null]
      && ConcatenateRouteTarget(a, b) == map[IMPORT_RT := List([Str("64512:1"), Str("64512:2")])]
  {
    var a, b := map[IMPORT_RT := List([Str("64512:1")])], map[IMPORT_RT := List([Str("64512:2")])];
    assert ConcatenateRouteTargetAsWritten(a, b).Keys == {IMPORT_RT};
    assert ConcatenateRouteTarget(a, b).Keys == {IMPORT_RT};
    assert [Str("64512:1")] + [Str("64512:2")] == [Str("64512:1"), Str("64512:2")];
  }

  /** Removing the second dict's route targets from the concatenation gives
      back the first dict's, on the shared keys, when the two share no
      route target. */
  lemma RemoveAfterConcatenate(rt1: Details, rt2: Details)
    requires ListsOnCommonKeys(rt1, rt2)
    requires forall k, x :: k in rt1 && k in rt2 && x in rt1[k].items ==> x !in rt2[k].items
    ensures ListsOnCommonKeys(ConcatenateRouteTarget(rt1, rt2), rt2)
    ensures RemoveRouteTarget(ConcatenateRouteTarget(rt1, rt2), rt2) == map k | k in rt1 && k in rt2 :: rt1[k]
  {
    var c := ConcatenateRouteTarget(rt1, rt2);
    var r := RemoveRouteTarget(c, rt2);
    forall k | k in r ensures r[k] == rt1[k] {
      FilterOutConcat(rt1[k].items, rt2[k].items, rt2[k].items);
      FilterOutDisjoint(rt1[k].items, rt2[k].items);
      FilterOutCovered(rt2[k].items, rt2[k].items);
      assert rt1[k].items + [] == rt1[k].items;
    }
  }

  // ---------------------------------------------------------------------
  // Attach payloads

  /** The keys copied from an attachment into every payload. */
  predicate IsCopiedKey(k: string) {
    k == LOCAL_PORT || k == MAC_ADDRESS || k == IP_ADDRESS || k == GATEWAY_IP || k == LINUXBR
  }

  /** What every payload builder reads from an attachment. */
  predicate HasNetworkDetails(d: Details) {
    && LOCAL_PORT in d && MAC_ADDRESS in d && IP_ADDRESS in d && GATEWAY_IP in d
    && VPN_INSTANCE_ID in d && d[VPN_INSTANCE_ID].Str?
  }

  /** Copies the local port, MAC address, IP address and gateway, and the
      Linux bridge when there is one. */
  function CopyLocalPortAndNetworkDetails(d: Details): (r: Details)
    requires LOCAL_PORT in d && MAC_ADDRESS in d && IP_ADDRESS in d && GATEWAY_IP in d
    ensures forall k :: k in r <==> IsCopiedKey(k) && k in d
    ensures forall k :: k in r ==> r[k] == d[k]
  {
    var copy := map[LOCAL_PORT := d[LOCAL_PORT], MAC_ADDRESS := d[MAC_ADDRESS],
                     IP_ADDRESS := d[IP_ADDRESS], GATEWAY_IP := d[GATEWAY_IP]];
    if LINUXBR in d then copy[LINUXBR := d[LINUXBR]] else copy
  }

  /** The copied details with the instance id suffixed and the VPN type set. */
  function PayloadBase(d: Details, suffix: string, vpnType: string): Details
    requires HasNetworkDetails(d)
  {
    CopyLocalPortAndNetworkDetails(d)[VPN_INSTANCE_ID := Str(d[VPN_INSTANCE_ID].s + suffix)][VPN_TYPE := Str(vpnType)]
  }

  /** What the E-VPN builder needs of an attachment: a given dict, or the
      stored dicts it merges, must be dicts, and lists where concatenated. */
  predicate EvpnReady(d: Details, given: Details) {
    && HasNetworkDetails(d)
    && (EVPN_BGPVPN in d && given == map[] ==> d[EVPN_BGPVPN].Dict?)
    && (EVPN_BGPVPN in d && given == map[] && EVPN in d ==>
          d[EVPN].Dict? && ListsOnCommonKeys(d[EVPN].fields, d[EVPN_BGPVPN].fields))
    && (EVPN_BGPVPN !in d && EVPN in d ==> d[EVPN].Dict?)
  }

  /** The dict the E-VPN builder merges into its payload. An empty `given`
      stands for None (an empty dict is false in Python too). */
  function EvpnUpdate(d: Details, given: Details): Details
    requires EvpnReady(d, given)
  {
    if EVPN_BGPVPN in d then
      if given != map[] then given
      else if EVPN in d then ConcatenateRouteTarget(d[EVPN].fields, d[EVPN_BGPVPN].fields)
      else d[EVPN_BGPVPN].fields
    else if EVPN in d then d[EVPN].fields
    else map[]
  }

  /** The E-VPN attach payload: the copied details under instance
      `<id>_evpn` of type `evpn`, updated with the BGP VPN route targets
      (given, or stored, concatenated with the E-VPN ones when the port is
      also on an E-VPN network), or with the E-VPN details alone. */
  function GetLocalPortWithEvpnDetails(d: Details, given: Details): (r: Details)
    requires EvpnReady(d, given)
    ensures VPN_INSTANCE_ID in r && VPN_TYPE in r
    ensures forall k :: IsCopiedKey(k) && k in d ==> k in r
    ensures VPN_TYPE !in EvpnUpdate(d, given) ==> r[VPN_TYPE] == Str("evpn")
  {
    PayloadBase(d, "_evpn", "evpn") + EvpnUpdate(d, given)
  }

  /** The dict the E-VPN builder merges as written: for a port on both an
      E-VPN and an E-VPN BGP VPN with no route targets given, it is the
      as-written concatenation; otherwise it is the dict `EvpnUpdate` gives. */
  function EvpnUpdateAsWritten(d: Details, given: Details): Details
    requires EvpnReady(d, given)
  {
    if EVPN_BGPVPN in d && given == map[] && EVPN in d
    then ConcatenateRouteTargetAsWritten(d[EVPN].fields, d[EVPN_BGPVPN].fields)
    else EvpnUpdate(d, given)
  }

  /** The E-VPN payload as written, built on the as-written concatenation. */
  function GetLocalPortWithEvpnDetailsAsWritten(d: Details, given: Details): Details
    requires EvpnReady(d, given)
  {
    PayloadBase(d, "_evpn", "evpn") + EvpnUpdateAsWritten(d, given)
  }

  /** As written, the E-VPN payload of a port on both an E-VPN and an E-VPN
      BGP VPN, with no route targets given, carries None under every key the
      two route target dicts share; under every other key it agrees with the
      corrected payload. */
  lemma EvpnPayloadAsWrittenLosesRouteTargets(d: Details)
    requires EvpnReady(d, map[]) && EVPN in d && EVPN_BGPVPN in d
    ensures var w := GetLocalPortWithEvpnDetailsAsWritten(d, map[]);
      forall k :: k in d[EVPN].fields && k in d[EVPN_BGPVPN].fields ==> k in w && w[k] == Null
    ensures var w, c := GetLocalPortWithEvpnDetailsAsWritten(d, map[]), GetLocalPortWithEvpnDetails(d, map[]);
      forall k :: !(k in d[EVPN].fields && k in d[EVPN_BGPVPN].fields) ==> (k in w <==> k in c) && (k in w ==> w[k] == c[k])
    ensures var c := GetLocalPortWithEvpnDetails(d, map[]);
      forall k :: k in d[EVPN].fields && k in d[EVPN_BGPVPN].fields ==> k in c && c[k].List?
  {
  }
  /** The E-VPN payload: the update dict wins; otherwise exactly the copied
      details, the suffixed instance id and the VPN type. */
  lemma EvpnPayloadShape(d: Details, given: Details)
    requires EvpnReady(d, given)
    ensures var r, u := GetLocalPortWithEvpnDetails(d, given), EvpnUpdate(d, given);
      && (forall k :: k in u ==> k in r && r[k] == u[k])
      && (forall k :: k !in u ==> (k in r <==> (IsCopiedKey(k) && k in d) || k == VPN_INSTANCE_ID || k == VPN_TYPE))
      && (forall k :: IsCopiedKey(k) && k in d && k !in u ==> r[k] == d[k])
      && (VPN_INSTANCE_ID !in u ==> r[VPN_INSTANCE_ID] == Str(d[VPN_INSTANCE_ID].s + "_evpn"))
      && (VPN_TYPE !in u ==> r[VPN_TYPE] == Str("evpn"))
  {
  }


  /** What the IP-VPN builder needs of an attachment. */
  predicate IpvpnReady(d: Details, given: Details) {
    && HasNetworkDetails(d)
    && (given == map[] ==> IPVPN_BGPVPN in d && d[IPVPN_BGPVPN].Dict?)
  }

  function IpvpnUpdate(d: Details, given: Details): Details
    requires IpvpnReady(d, given)
  {
    if given != map[] then given else d[IPVPN_BGPVPN].fields
  }

  /** The local port of an IP-VPN plugged into the port's E-VPN instance. */
  function EvpnLocalPort(evpnInstanceId: string): Value {
    Dict(map[EVPN := Dict(map["id" := Str(evpnInstanceId)])])
  }

  /** The IP-VPN attach payload: the copied details under instance
      `<id>_ipvpn` of type `ipvpn`, its local port replaced by the port's
      E-VPN instance when the port is on an E-VPN, updated with the given or
      stored IP-VPN route targets. */
  function GetLocalPortWithIpvpnDetails(d: Details, given: Details): (r: Details)
    requires IpvpnReady(d, given)
    ensures VPN_INSTANCE_ID in r && VPN_TYPE in r && LOCAL_PORT in r
    ensures forall k :: IsCopiedKey(k) && k in d ==> k in r
    ensures VPN_TYPE !in IpvpnUpdate(d, given) ==> r[VPN_TYPE] == Str("ipvpn")
  {
    var base := PayloadBase(d, "_ipvpn", "ipvpn");
    var plugged := if EVPN in d || EVPN_BGPVPN in d then base[LOCAL_PORT := EvpnLocalPort(d[VPN_INSTANCE_ID].s + "_evpn")] else base;
    plugged + IpvpnUpdate(d, given)
  }
  /** The IP-VPN payload: the update dict wins; otherwise exactly the
      copied details, with the local port redirected to the E-VPN instance
      when the port is on an E-VPN, the suffixed instance id and the VPN
      type. */
  lemma IpvpnPayloadShape(d: Details, given: Details)
    requires IpvpnReady(d, given)
    ensures var r, u := GetLocalPortWithIpvpnDetails(d, given), IpvpnUpdate(d, given);
      && (forall k :: k in u ==> k in r && r[k] == u[k])
      && (forall k :: k !in u ==> (k in r <==> (IsCopiedKey(k) && k in d) || k == VPN_INSTANCE_ID || k == VPN_TYPE))
      && (forall k :: IsCopiedKey(k) && k != LOCAL_PORT && k in d && k !in u ==> r[k] == d[k])
      && (LOCAL_PORT !in u ==>
            r[LOCAL_PORT] == if EVPN in d || EVPN_BGPVPN in d then EvpnLocalPort(d[VPN_INSTANCE_ID].s + "_evpn") else d[LOCAL_PORT])
      && (VPN_INSTANCE_ID !in u ==> r[VPN_INSTANCE_ID] == Str(d[VPN_INSTANCE_ID].s + "_ipvpn"))
      && (VPN_TYPE !in u ==> r[VPN_TYPE] == Str("ipvpn"))
  {
  }


  /** An IP-VPN payload of a port on an E-VPN names, as its local port, the
      very instance the port's E-VPN payload attaches to. */
  lemma IpvpnPlugsIntoEvpnInstance(d: Details)
    requires EvpnReady(d, map[]) && IpvpnReady(d, map[])
    requires EVPN in d || EVPN_BGPVPN in d
    requires VPN_INSTANCE_ID !in EvpnUpdate(d, map[]) && LOCAL_PORT !in IpvpnUpdate(d, map[])
    ensures LOCAL_PORT in GetLocalPortWithIpvpnDetails(d, map[])
    ensures VPN_INSTANCE_ID in GetLocalPortWithEvpnDetails(d, map[])
    ensures GetLocalPortWithIpvpnDetails(d, map[])[LOCAL_PORT] ==
      Dict(map[EVPN := Dict(map["id" := GetLocalPortWithEvpnDetails(d, map[])[VPN_INSTANCE_ID]])])
  {
    EvpnPayloadShape(d, map[]);
    IpvpnPayloadShape(d, map[]);
  }

  /** The E-VPN payload of a port on both an E-VPN and an E-VPN BGP VPN
      carries, under each shared key, the route targets of both, and those
      of the BGP VPN alone can be subtracted back out. */
  lemma EvpnPayloadMergesRouteTargets(d: Details, k: string)
    requires EvpnReady(d, map[]) && EVPN in d && EVPN_BGPVPN in d
    requires k in d[EVPN].fields && k in d[EVPN_BGPVPN].fields
    requires forall x :: x in d[EVPN].fields[k].items ==> x !in d[EVPN_BGPVPN].fields[k].items
    ensures k in GetLocalPortWithEvpnDetails(d, map[]) && GetLocalPortWithEvpnDetails(d, map[])[k].List?
    ensures FilterOut(GetLocalPortWithEvpnDetails(d, map[])[k].items, d[EVPN_BGPVPN].fields[k].items) == d[EVPN].fields[k].items
  {
    var a, b := d[EVPN].fields[k].items, d[EVPN_BGPVPN].fields[k].items;
    EvpnPayloadShape(d, map[]);
    assert GetLocalPortWithEvpnDetails(d, map[])[k] == List(a + b);
    FilterOutConcat(a, b, b);
    FilterOutDisjoint(a, b);
    FilterOutCovered(b, b);
    assert a + [] == a;
  }
}
