/** The IP-VPN instance (VRF): it keys received routes by their prefix,
    turns best-route changes into calls on its instance dataplane, and
    builds the labelled VPN route that advertises a locally plugged
    interface. The best-path tracker, encapsulation negotiation and route
    entry construction belong to the VPN instance base class and are given
    here as plain definitions. */
module IpVpn {
  import opened Wrappers
  import opened Inet
  import opened VpnNlri
  import opened DataplaneDrivers

  /** A route target community (AS number, assigned number). */
  datatype RouteTarget = RouteTarget(asn: nat, number: nat)

  /** The path attributes this instance reads: the next hop and the
      encapsulations advertised in the Encapsulation extended communities. */
  datatype Attributes = Attributes(nextHop: Option<IPv4Address>, encaps: set<EncapType>)

  const NO_ATTRIBUTES := Attributes(None, {})

  datatype Route = Route(nlri: Nlri, attributes: Attributes)

  /** What the base class's `_newRouteEntry` returns: the route together with
      its family and the route targets it is exported with. */
  datatype RouteEntry = RouteEntry(afi: nat, safi: nat, routeTargets: seq<RouteTarget>, nlri: Nlri, attributes: Attributes)

  datatype VrfError =
    | UnexpectedRouteType(instanceId: nat)  // a non-VPN NLRI reached the instance
    | MissingNextHop                        // the route has no next-hop attribute
    | EmptyLabelStack                       // the route carries no label
    | MissingEncapsArgument                 // a dataplane call omits its required `encaps` argument

  /** Encapsulation negotiation: the encapsulations both the driver and the
      route's advertiser support. */
  function CheckEncaps(supported: seq<EncapType>, route: Route): (r: set<EncapType>)
    ensures forall e :: e in r <==> e in supported && e in route.attributes.encaps
  {
    set e | e in supported && e in route.attributes.encaps
  }

  /** The dataplane calls a best-route change leads to: none when no
      encapsulation is common, otherwise one setup call with the prefix, the
      next hop, the first label and the negotiated encapsulations. A route
      without a next hop or a label raises before any call. */
  function NewBestRouteCalls(supported: seq<EncapType>, prefix: Prefix, route: Route): (r: Result<seq<DataplaneCall>, VrfError>)
    ensures r.Success? && r.value == [] <==> CheckEncaps(supported, route) == {}
    ensures r.Failure? <==>
      && CheckEncaps(supported, route) != {}
      && (route.attributes.nextHop.None? || !route.nlri.VpnLabelledPrefix? || |route.nlri.labelStack| == 0)
    ensures r.Failure? ==> (r.error == MissingNextHop <==> route.attributes.nextHop.None?)
  {
    var encaps := CheckEncaps(supported, route);
    if encaps == {} then Success([])
    else if route.attributes.nextHop.None? then Failure(MissingNextHop)
    else if !route.nlri.VpnLabelledPrefix? || |route.nlri.labelStack| == 0 then Failure(EmptyLabelStack)
    else Success([SetupRemote(prefix, route.attributes.nextHop.value, route.nlri.labelStack[0].labelValue, route.nlri, encaps)])
  }

  /** The withdrawal of a best route as the instance writes it: the next
      hop and the first label are read (and raise when missing), then the
      dataplane's remove operation is called without its required
      encapsulations argument, which raises before the dataplane runs. */
  function BestRouteRemovedCallsAsWritten(prefix: Prefix, route: Route): (r: Result<seq<DataplaneCall>, VrfError>)
    ensures r.Failure?
    ensures r.error == MissingEncapsArgument <==>
      route.attributes.nextHop.Some? && route.nlri.VpnLabelledPrefix? && |route.nlri.labelStack| > 0
  {
    if route.attributes.nextHop.None? then Failure(MissingNextHop)
    else if !route.nlri.VpnLabelledPrefix? || |route.nlri.labelStack| == 0 then Failure(EmptyLabelStack)
    else Failure(MissingEncapsArgument)
  }

  /** The withdrawal of a best route with the remove operation called as
      its signature requires: exactly one remove call, with the same
      prefix, next hop, first label and negotiated encapsulations as the
      setup call. */
  function BestRouteRemovedCalls(supported: seq<EncapType>, prefix: Prefix, route: Route): (r: Result<seq<DataplaneCall>, VrfError>)
    ensures r.Success? <==> route.attributes.nextHop.Some? && route.nlri.VpnLabelledPrefix? && |route.nlri.labelStack| > 0
    ensures r.Failure? ==> (r.error == MissingNextHop <==> route.attributes.nextHop.None?)
    ensures r.Success? ==>
      && |r.value| == 1 && r.value[0].RemoveRemote? && r.value[0].prefix == prefix && r.value[0].nlri == route.nlri
      && Some(r.value[0].remotePE) == route.attributes.nextHop
      && r.value[0].mplsLabel == route.nlri.labelStack[0].labelValue
      && (forall e :: e in r.value[0].encaps <==> e in supported && e in route.attributes.encaps)
  {
    if route.attributes.nextHop.None? then Failure(MissingNextHop)
    else if !route.nlri.VpnLabelledPrefix? || |route.nlri.labelStack| == 0 then Failure(EmptyLabelStack)
    else Success([RemoveRemote(prefix, route.attributes.nextHop.value, route.nlri.labelStack[0].labelValue, route.nlri,
                               CheckEncaps(supported, route))])
  }

  /** As written, no withdrawal ever reaches the dataplane: every route
      fails, and a route that was installed fails for the missing argument
      alone, whereas the corrected call removes it. */
  lemma WithdrawalAsWrittenNeverRemoves(supported: seq<EncapType>, prefix: Prefix, route: Route)
    ensures BestRouteRemovedCallsAsWritten(prefix, route).Failure?
    ensures NewBestRouteCalls(supported, prefix, route).Success? && NewBestRouteCalls(supported, prefix, route).value != [] ==>
      && BestRouteRemovedCallsAsWritten(prefix, route) == Failure(MissingEncapsArgument)
      && BestRouteRemovedCalls(supported, prefix, route).Success?
      && |BestRouteRemovedCalls(supported, prefix, route).value| == 1
  {
  }

  /** No forwarding state is installed for a route whose encapsulations the
      driver does not support; otherwise at most one setup call is made, and
      it carries the route's own next hop and label. */
  lemma NewBestRouteCallsShape(supported: seq<EncapType>, prefix: Prefix, route: Route)
    ensures (forall e :: e in supported ==> e !in route.attributes.encaps) ==> NewBestRouteCalls(supported, prefix, route) == Success([])
    ensures NewBestRouteCalls(supported, prefix, route).Success? ==> |NewBestRouteCalls(supported, prefix, route).value| <= 1
    ensures forall c :: NewBestRouteCalls(supported, prefix, route).Success? && c in NewBestRouteCalls(supported, prefix, route).value ==>
      && c.SetupRemote? && c.prefix == prefix && c.encaps != {}
      && Some(c.remotePE) == route.attributes.nextHop
      && route.nlri.VpnLabelledPrefix? && c.mplsLabel == route.nlri.labelStack[0].labelValue
      && (forall e :: e in c.encaps ==> e in supported && e in route.attributes.encaps)
  {
    if forall e :: e in supported ==> e !in route.attributes.encaps {
      assert CheckEncaps(supported, route) == {};
    }
  }

  /** A route installed by a best-route change and later withdrawn is
      removed with the same prefix, next hop, label and encapsulations it
      was set up with. */
  lemma SetupThenRemoveSameTriple(supported: seq<EncapType>, prefix: Prefix, route: Route)
    requires NewBestRouteCalls(supported, prefix, route).Success?
    requires NewBestRouteCalls(supported, prefix, route).value != []
    ensures BestRouteRemovedCalls(supported, prefix, route).Success?
    ensures var s := NewBestRouteCalls(supported, prefix, route).value[0];
            var r := BestRouteRemovedCalls(supported, prefix, route).value[0];
            && s.prefix == r.prefix && s.remotePE == r.remotePE && s.mplsLabel == r.mplsLabel && s.nlri == r.nlri
            && s.encaps == r.encaps
  {
  }

  class VRF {
    const instanceId: nat
    const exportRTs: seq<RouteTarget>
    /** The BGP-facing local address, `bgpManager.getLocalAddress()`. */
    const bgpLocalAddress: IPv4Address
    /** `dataplaneDriver.supportedEncaps()`. */
    const driverEncaps: seq<EncapType>
    const dataplane: DummyVpnInstanceDataplane

    constructor (instanceId: nat, exportRTs: seq<RouteTarget>, bgpLocalAddress: IPv4Address,
                 driverEncaps: seq<EncapType>, dataplane: DummyVpnInstanceDataplane)
      ensures this.instanceId == instanceId && this.exportRTs == exportRTs
      ensures this.bgpLocalAddress == bgpLocalAddress && this.driverEncaps == driverEncaps
      ensures this.dataplane == dataplane
    {
      this.instanceId := instanceId;
      this.exportRTs := exportRTs;
      this.bgpLocalAddress := bgpLocalAddress;
      this.driverEncaps := driverEncaps;
      this.dataplane := dataplane;
    }

    /** The tracked key of a received route: the prefix of a labelled VPN
        prefix; any other family is refused with an error. */
    function Route2TrackedEntry(route: Route): (r: Result<Prefix, VrfError>)
      ensures r.Success? <==> route.nlri.VpnLabelledPrefix?
      ensures r.Success? ==> r.value == route.nlri.prefix
      ensures r.Failure? ==> r.error == UnexpectedRouteType(instanceId)
    {
      match route.nlri
      case VpnLabelledPrefix(_, _, prefix, _, _) => Success(prefix)
      case OtherNlri(_) => Failure(UnexpectedRouteType(instanceId))
    }

    /** Every pair of routes compares equal: no route is preferred over
        another by this instance. */
    function CompareRoutes(a: Route, b: Route): (r: int)
      ensures r == 0
    {
      0
    }

    /** The route advertising a locally plugged interface: a /32 labelled
        VPN-IPv4 prefix of its address, with a type 1 route distinguisher of
        the BGP local address and the instance id, a single bottom-of-stack
        label, exported with the instance's route targets. The MAC address
        is not used. */
    function GenerateVifBGPRoute(macAddress: string, ipAddress: IPv4Address, mplsLabel: nat): (e: RouteEntry)
      requires instanceId < ASSIGNED_NUMBER_LIMIT && mplsLabel < LABEL_LIMIT
      ensures e.afi == AFI_IPV4 && e.safi == SAFI_MPLS_VPN && e.routeTargets == exportRTs
      ensures e.nlri.VpnLabelledPrefix? && e.nlri.afi == AFI_IPV4 && e.nlri.safi == SAFI_MPLS_VPN
      ensures e.nlri.prefix == Prefix(AFI_IPV4, ipAddress, 32)
      ensures e.nlri.rd.number == instanceId && e.nlri.labelStack == [LabelStackEntry(mplsLabel, true)]
      ensures e.nlri.rd == IpLoc(bgpLocalAddress, instanceId)
      ensures DecodeRD(EncodeRD(e.nlri.rd)) == Some(IpLoc(bgpLocalAddress, instanceId))
      ensures e.attributes == NO_ATTRIBUTES
      ensures |e.nlri.labelStack| == 1
      ensures DecodeLabel(EncodeLabel(e.nlri.labelStack[0])) == Some(LabelStackEntry(mplsLabel, true))
      ensures EncodeLabel(e.nlri.labelStack[0])[2] % 2 == 1
    {
      var entry := LabelStackEntry(mplsLabel, true);
      LabelRoundTrip(entry);
      RDRoundTrip(IpLoc(bgpLocalAddress, instanceId));
      var nlri := VpnLabelledPrefix(AFI_IPV4, SAFI_MPLS_VPN, Prefix(AFI_IPV4, ipAddress, 32),
                                    IpLoc(bgpLocalAddress, instanceId), [entry]);
      RouteEntry(AFI_IPV4, SAFI_MPLS_VPN, exportRTs, nlri, NO_ATTRIBUTES)
    }

    /** Best-route change for `prefix`: the dataplane receives exactly the
        calls `NewBestRouteCalls` gives, or none when the route is malformed. */
    method NewBestRoute(prefix: Prefix, newRoute: Route) returns (r: Outcome<VrfError>)
      modifies dataplane`calls
      ensures var expected := NewBestRouteCalls(driverEncaps, prefix, newRoute);
        && (r.Fail? <==> expected.Failure?)
        && (r.Fail? ==> r.error == expected.error && dataplane.calls == old(dataplane.calls))
        && (r.Pass? ==> dataplane.calls == old(dataplane.calls) + expected.value)
    {
      var encaps := CheckEncaps(driverEncaps, newRoute);
      if encaps == {} {
        return Pass;
      }
      if newRoute.attributes.nextHop.None? {
        return Fail(MissingNextHop);
      }
      if !newRoute.nlri.VpnLabelledPrefix? || |newRoute.nlri.labelStack| == 0 {
        return Fail(EmptyLabelStack);
      }
      dataplane.SetupDataplaneForRemoteEndpoint(prefix, newRoute.attributes.nextHop.value,
                                                newRoute.nlri.labelStack[0].labelValue, newRoute.nlri, encaps);
      r := Pass;
    }

    /** Withdrawal of the best route for `prefix`: one remove call carrying
        the negotiated encapsulations, or none when the route is malformed. */
    method BestRouteRemoved(prefix: Prefix, oldRoute: Route) returns (r: Outcome<VrfError>)
      modifies dataplane`calls
      ensures var expected := BestRouteRemovedCalls(driverEncaps, prefix, oldRoute);
        && (r.Fail? <==> expected.Failure?)
        && (r.Fail? ==> r.error == expected.error && dataplane.calls == old(dataplane.calls))
        && (r.Pass? ==> dataplane.calls == old(dataplane.calls) + expected.value)
    {
      if oldRoute.attributes.nextHop.None? {
        return Fail(MissingNextHop);
      }
      if !oldRoute.nlri.VpnLabelledPrefix? || |oldRoute.nlri.labelStack| == 0 {
        return Fail(EmptyLabelStack);
      }
      dataplane.RemoveDataplaneForRemoteEndpoint(prefix, oldRoute.attributes.nextHop.value,
                                                 oldRoute.nlri.labelStack[0].labelValue, oldRoute.nlri,
                                                 CheckEncaps(driverEncaps, oldRoute));
      r := Pass;
    }
  }

  /** A route the instance generates for a plugged interface is accepted by
      the instance's own route keying, under the /32 prefix of the interface. */
  lemma GeneratedRouteIsTracked(v: VRF, macAddress: string, ipAddress: IPv4Address, mplsLabel: nat)
    requires v.instanceId < ASSIGNED_NUMBER_LIMIT && mplsLabel < LABEL_LIMIT
    ensures var e := v.GenerateVifBGPRoute(macAddress, ipAddress, mplsLabel);
      v.Route2TrackedEntry(Route(e.nlri, e.attributes)) == Success(Prefix(AFI_IPV4, ipAddress, 32))
  {
  }

  /** A best route followed by its withdrawal leaves the dataplane with one
      setup call and one remove call that agree on prefix, next hop, label
      and encapsulations. */
  method BestRouteThenWithdrawal(v: VRF, prefix: Prefix, route: Route)
    requires route.nlri.VpnLabelledPrefix? && |route.nlri.labelStack| > 0
    requires route.attributes.nextHop.Some?
    requires CheckEncaps(v.driverEncaps, route) != {}
    modifies v.dataplane`calls
    ensures |v.dataplane.calls| == |old(v.dataplane.calls)| + 2
    ensures var s, r := v.dataplane.calls[|v.dataplane.calls| - 2], v.dataplane.calls[|v.dataplane.calls| - 1];
      && s.SetupRemote? && r.RemoveRemote?
      && s.prefix == r.prefix == prefix && s.remotePE == r.remotePE && s.mplsLabel == r.mplsLabel
      && s.encaps == r.encaps
  {
    var o1 := v.NewBestRoute(prefix, route);
    var o2 := v.BestRouteRemoved(prefix, route);
  }
}
