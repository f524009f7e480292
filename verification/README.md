# networking-bagpipe core, modelled in Dafny

This project models four sequential pieces of networking-bagpipe, the
BGP VPN (E-VPN and IP-VPN) support for OpenStack Neutron:

* **the dataplane driver lifecycle** of bagpipe-bgp. A driver validates the
  optional `dataplane_local_address` at construction and compares the
  kernel against the driver's requirement, which can only log a warning.
  It resets leftover forwarding state exactly once, when it creates its
  first VPN instance dataplane, and hands out per-instance handles. The
  "dummy" driver and instance dataplane are the no-op variants.
* **the IP-VPN instance (VRF)**. It keys received routes by prefix and
  refuses non-VPN routes. It turns best-route changes and withdrawals into
  setup and remove calls on its instance dataplane, and builds the
  labelled VPN-IPv4 route advertising a locally plugged interface:
  * a /32 prefix (section 4.3.4 of RFC 4364);
  * a type 1 route distinguisher of the local address and the instance id
    (section 4.2 of RFC 4364);
  * one bottom-of-stack MPLS label (section 2.1 of RFC 3032).
* **the route target type driver** of the ML2 plugin. It parses the
  configured `min:max` number ranges and validates provider segments. It
  reserves, allocates and releases route target numbers in an allocation
  table, and synchronises that table with the ranges.
* **the BGP VPN layer-2 agent**:
  * its registry of attached ports (network id to a list of attachment
    dicts);
  * the UP/DOWN status it derives from the BGP component's ping sequence
    number, including the replay of every attachment after a restart;
  * the route target arithmetic;
  * the E-VPN and IP-VPN attach payloads;
  * the BGP VPN detach, which subtracts the detached route targets.

Modules, one per file:

| file | module | contents |
|---|---|---|
| `wrappers.dfy` | `Wrappers` | `Option`, `Result` and `Outcome` |
| `text.dfy` | `Text` | Python's `str.strip`, `str.split`, `int()` and `str()` on decimals |
| `inet.dfy` | `Inet` | dotted-quad IPv4 text as `inet_pton` accepts it |
| `vpn_nlri.dfy` | `VpnNlri` | prefix, route distinguisher, label-stack entry and labelled VPN prefix, with their wire layouts |
| `dataplane_drivers.dfy` | `DataplaneDrivers` | the driver as a class with `firstInit` and ghost call counters; the handle as a record; the dummy instance dataplane as a class with a ghost call trace |
| `ipvpn.dfy` | `IpVpn` | the VRF as a class over its dummy dataplane |
| `route_target_pool.dfy` | `RouteTargetPool` | the allocation table as `map<int, bool>` (number to "allocated"); the driver as a class holding the ranges and the table |
| `bgp_agent_values.dfy` | `AgentValues` | attachment dicts as `map<string, Value>`; route target dicts and payload builders |
| `bgp_agent.dfy` | `BgpAgent` | the status machine, the registry functions and the agent as a class with `reg_attachments`, status, sequence number and the trace of posted requests |

Each stateful operation is a method. Its postcondition ties the new state
to a specification function of the old state. The lemmas about those
functions state what the source promises.

## Model

| member | source | states |
|---|---|---|
| DataplaneDrivers.LocalAddressFromConfig | bagpipe/bgp/vpn/dataplane_drivers.py:52-62 | Succeeds iff `dataplane_local_address` is absent or holds an IPv4 literal. An absent key gives None. A valid value is returned verbatim. Anything else is a `MalformedLocalAddress` error. |
| DataplaneDrivers.LocalAddressAccepted | bagpipe/bgp/vpn/dataplane_drivers.py:54-56 | The dotted-quad spelling of any address is accepted unchanged and denotes exactly that address. |
| DataplaneDrivers.DataplaneDriver.constructor | bagpipe/bgp/vpn/dataplane_drivers.py:44-83 | Config, encapsulations, kernel requirement and local address are stored. `firstInit` is true and neither reset nor cleanup has run. `_initReal` ran once iff `init`. The kernel warning is logged iff the running kernel is older than the requirement; it is never an error. |
| DataplaneDrivers.NewDataplaneDriver | bagpipe/bgp/vpn/dataplane_drivers.py:44-83 | Construction fails iff the local-address check fails, and with that check's error. Otherwise the new driver has `firstInit`, no reset yet, `getLocalAddress()` equal to the configured address or None, and `supportedEncaps()` equal to the class's encapsulations. |
| DataplaneDrivers.NewDummyDataplaneDriver | bagpipe/bgp/vpn/dataplane_drivers.py:230-247 | The dummy driver supports only the default encapsulation (the class default of line 39) and never warns about the kernel. |
| DataplaneDrivers.DataplaneDriver.InitializeDataplaneInstance | bagpipe/bgp/vpn/dataplane_drivers.py:100-120 | `resetState` runs iff this is the first instance; an exception it raises is absorbed. `firstInit` is false afterwards. The handle carries exactly the given ids, gateway, mask and label, the driver and its config. |
| DataplaneDrivers.InitializeInstances | bagpipe/bgp/vpn/dataplane_drivers.py:108-116 | Over N instance creations on a fresh driver, `resetState` runs exactly once if N >= 1 and never if N = 0. |
| DataplaneDrivers.DataplaneDriver.Cleanup | bagpipe/bgp/vpn/dataplane_drivers.py:122-124 | Cleanup runs `_cleanupReal` once and changes neither `firstInit` nor the reset count. |
| DataplaneDrivers.DummyVpnInstanceDataplane.constructor | bagpipe/bgp/vpn/dataplane_drivers.py:151-161 | The instance dataplane keeps the handle it was created from and has made no call. |
| DataplaneDrivers.DummyVpnInstanceDataplane.VifPluggedCall | bagpipe/bgp/vpn/dataplane_drivers.py:206-208 | Exactly one plug call is recorded, with its arguments. |
| DataplaneDrivers.DummyVpnInstanceDataplane.VifUnpluggedCall | bagpipe/bgp/vpn/dataplane_drivers.py:210-213 | Exactly one unplug call is recorded, with its arguments. |
| DataplaneDrivers.DummyVpnInstanceDataplane.SetupDataplaneForRemoteEndpoint | bagpipe/bgp/vpn/dataplane_drivers.py:215-218 | Exactly one setup call is recorded, with its arguments. |
| DataplaneDrivers.DummyVpnInstanceDataplane.RemoveDataplaneForRemoteEndpoint | bagpipe/bgp/vpn/dataplane_drivers.py:220-223 | Exactly one remove call is recorded, with its arguments; `encaps` is required. |
| DataplaneDrivers.DummyVpnInstanceDataplane.Cleanup | bagpipe/bgp/vpn/dataplane_drivers.py:225-227 | Exactly one cleanup call is recorded. |
| Inet.ParseFormatIPv4 | bagpipe/bgp/vpn/dataplane_drivers.py:55-55 | The dotted-quad spelling of every address is an accepted literal that reads back as that address. |
| Inet.FormatParseIPv4 | bagpipe/bgp/vpn/dataplane_drivers.py:55-55 | Every accepted literal is the canonical dotted-quad spelling of the address it denotes. |
| VpnNlri.RDRoundTrip | src/bagpipe/bgp/vpn/ipvpn/__init__.py:69-69 | A type 1 route distinguisher with a 16-bit assigned number encodes to eight octets that decode back to the same address and number. |
| VpnNlri.LabelRoundTrip | src/bagpipe/bgp/vpn/ipvpn/__init__.py:70-70 | A 20-bit label-stack entry encodes to three octets that decode back to it. The low bit of the last octet is the bottom-of-stack flag. |
| IpVpn.CheckEncaps | src/bagpipe/bgp/vpn/ipvpn/__init__.py:93-93 | The negotiated encapsulations are exactly those both the driver and the route's advertiser support. |
| IpVpn.NewBestRouteCalls | src/bagpipe/bgp/vpn/ipvpn/__init__.py:88-97 | No call is made exactly when no encapsulation is common. With a common one, a route without a next hop or a label fails, and the next hop is checked first, as Python evaluates the arguments. |
| IpVpn.BestRouteRemovedCallsAsWritten | src/bagpipe/bgp/vpn/ipvpn/__init__.py:100-106 | As written, every withdrawal fails. It fails for the missing `encaps` argument exactly when the route has a next hop and a label. |
| IpVpn.BestRouteRemovedCalls | src/bagpipe/bgp/vpn/ipvpn/__init__.py:100-106 | Corrected: a route with a next hop and a label gives exactly one remove call with the prefix, NLRI, next hop, first label and the negotiated encapsulations. Otherwise it fails, next hop first. |
| IpVpn.NewBestRouteCallsShape | src/bagpipe/bgp/vpn/ipvpn/__init__.py:93-98 | No dataplane call when the driver supports none of the route's encapsulations. Otherwise at most one call: a setup carrying the prefix, the route's next hop, its first label and non-empty negotiated encapsulations. |
| IpVpn.SetupThenRemoveSameTriple | src/bagpipe/bgp/vpn/ipvpn/__init__.py:97-106 | A route that was set up is withdrawn with the same prefix, next hop, label, NLRI and encapsulations. |
| IpVpn.WithdrawalAsWrittenNeverRemoves | src/bagpipe/bgp/vpn/ipvpn/__init__.py:105-106 | As written, every withdrawal raises before reaching the dataplane. An installed route fails only for the missing `encaps` argument, and the corrected call removes it with exactly one call. |
| IpVpn.VRF.constructor | src/bagpipe/bgp/vpn/ipvpn/__init__.py:58-62 | The instance keeps its id, export route targets, BGP local address, driver encapsulations and dataplane. |
| IpVpn.VRF.Route2TrackedEntry | src/bagpipe/bgp/vpn/ipvpn/__init__.py:79-83 | A labelled VPN prefix is keyed by its prefix. Any other NLRI is refused with an error naming the instance. |
| IpVpn.VRF.CompareRoutes | src/bagpipe/bgp/vpn/ipvpn/__init__.py:84-85 | Always 0, as in the source: every pair of routes compares equal. |
| IpVpn.VRF.GenerateVifBGPRoute | src/bagpipe/bgp/vpn/ipvpn/__init__.py:64-74 | The route has AFI ipv4 and SAFI mpls_vpn, the /32 prefix of the address, a type 1 RD equal to (local address, instance id), one label entry with the given label and bottom-of-stack set, the export route targets and no other attributes. The RD and the label survive their wire encodings. |
| IpVpn.GeneratedRouteIsTracked | src/bagpipe/bgp/vpn/ipvpn/__init__.py:64-83 | The route generated for an interface is accepted by the instance's own keying, under the interface's /32 prefix. |
| IpVpn.VRF.NewBestRoute | src/bagpipe/bgp/vpn/ipvpn/__init__.py:89-98 | The dataplane receives exactly the calls `NewBestRouteCalls` gives: none without a common encapsulation, otherwise one setup call. A route without a next hop or a label raises and calls nothing. |
| IpVpn.VRF.BestRouteRemoved | src/bagpipe/bgp/vpn/ipvpn/__init__.py:101-106 | Corrected withdrawal: exactly one remove call with the prefix, next hop, first label, NLRI and negotiated encapsulations. A malformed route raises and calls nothing. |
| IpVpn.BestRouteThenWithdrawal | src/bagpipe/bgp/vpn/ipvpn/__init__.py:89-106 | A best route followed by its withdrawal leaves one setup call and one remove call that agree on prefix, next hop, label and encapsulations. |
| Text.StripNoSpace | networking_bagpipe/driver/type_route_target.py:83-87 | Stripping text that has no white space changes nothing. |
| Text.SplitAtFirst | networking_bagpipe/driver/type_route_target.py:85-85 | Splitting on ':' cuts at the first separator and goes on splitting the rest. |
| Text.IntToStringRoundTrip | networking_bagpipe/driver/type_route_target.py:88-88 | `int()` reads back every integer from its decimal text, which contains neither white space nor ':'. |
| RouteTargetPool.ParseFormatRange | networking_bagpipe/driver/type_route_target.py:83-88 | The `min:max` text of every range parses back to that range. |
| RouteTargetPool.ParsedRangesAllWellFormed | networking_bagpipe/driver/type_route_target.py:82-88 | When every entry is well formed, each entry yields exactly its own range, in input order. |
| RouteTargetPool.ParsedRangesRoundTrip | networking_bagpipe/driver/type_route_target.py:81-92 | The configured text of any list of ranges parses back to that list. |
| RouteTargetPool.ParsedRangesConcat | networking_bagpipe/driver/type_route_target.py:82-88 | Parsing two entry lists one after the other concatenates their ranges. |
| RouteTargetPool.MalformedEntryIgnored | networking_bagpipe/driver/type_route_target.py:84-92 | An entry that does not split into exactly two parts adds no range. |
| RouteTargetPool.RouteTargetTypeDriver.ParseRouteTargetNumberRanges | networking_bagpipe/driver/type_route_target.py:81-92 | The loop appends exactly the ranges of the well-formed entries, in order, to the current ranges. |
| RouteTargetPool.ValidateProviderSegment | networking_bagpipe/driver/type_route_target.py:103-128 | Passes iff `physical_network` is falsy, the segmentation id is an integer in 1..65535 and no other key holds a truthy value. A physical network fails first, naming the network type. The "required" error only occurs for a partial segment. The prohibited keys reported are exactly the truthy other keys. |
| RouteTargetPool.IsValidRouteTargetNumber | networking_bagpipe/driver/type_route_target.py:97-98 | A number is valid iff it is non-zero and fits the 16-bit assigned-number field. |
| RouteTargetPool.IsPartialSegment | networking_bagpipe/driver/type_route_target.py:100-101 | A segment is partial iff its segmentation id is absent or None, as `dict.get` reads it. |
| RouteTargetPool.ValidSegmentIsComplete | networking_bagpipe/driver/type_route_target.py:100-115 | A segment that passes validation is never partial, and a partial one never passes. |
| RouteTargetPool.TenantSegmentValidates | networking_bagpipe/driver/type_route_target.py:160-162 | A tenant segment is complete, and it would pass provider validation iff its number is a valid route target number. |
| RouteTargetPool.RangeSet | networking_bagpipe/driver/type_route_target.py:197-197 | The numbers of a range are exactly lo..hi inclusive. |
| RouteTargetPool.PoolMembership | networking_bagpipe/driver/type_route_target.py:189-197 | A number is allocatable iff some configured range of at most 65535 numbers contains it. |
| RouteTargetPool.Sync | networking_bagpipe/driver/type_route_target.py:185-220 | After synchronisation every allocatable number has a row, and rows new to the table are free. An old row survives iff its number is allocatable or it is allocated. Surviving rows keep their flag, and no other row appears. |
| RouteTargetPool.SyncEstablishesInvariant | networking_bagpipe/driver/type_route_target.py:185-220 | Synchronisation establishes the table invariant: every allocatable number has a row, and every free row lies in a configured range. |
| RouteTargetPool.SyncIdempotent | networking_bagpipe/driver/type_route_target.py:185-220 | Synchronising twice against the same ranges gives the same table as once. |
| RouteTargetPool.Reserve | networking_bagpipe/driver/type_route_target.py:130-148 | An allocated row is reported in use. Otherwise the number's row (existing or new) becomes allocated and no other row changes. |
| RouteTargetPool.Allocated | networking_bagpipe/driver/type_route_target.py:156-162 | Allocating a free row flips exactly that row to allocated. |
| RouteTargetPool.Release | networking_bagpipe/driver/type_route_target.py:164-183 | A missing row leaves the table unchanged. Otherwise the row becomes free and is kept iff its number lies in some configured range, and is deleted otherwise. No other row changes. |
| RouteTargetPool.ReservePreservesInvariant | networking_bagpipe/driver/type_route_target.py:130-148 | A successful reservation preserves the table invariant. |
| RouteTargetPool.AllocatePreservesInvariant | networking_bagpipe/driver/type_route_target.py:150-162 | Tenant allocation preserves the table invariant. |
| RouteTargetPool.ReleasePreservesInvariant | networking_bagpipe/driver/type_route_target.py:164-183 | Release preserves the table invariant. |
| RouteTargetPool.AllocateThenRelease | networking_bagpipe/driver/type_route_target.py:150-183 | Allocating a free row and releasing it gives back the table. |
| RouteTargetPool.ReserveThenRelease | networking_bagpipe/driver/type_route_target.py:130-183 | Reserving and releasing gives back the table iff the number already had a row or lies outside every range. Otherwise a free row is left behind. |
| RouteTargetPool.SkippedRangeNumberBecomesAllocatable | networking_bagpipe/driver/type_route_target.py:164-197 | A number from a range that synchronisation skips as too wide is not allocatable. Yet once reserved and released, it stays as a free row that tenant allocation can hand out. |
| RouteTargetPool.DropUnallocatable | networking_bagpipe/driver/type_route_target.py:203-215 | The loop over the table keeps a row iff its number is allocatable or it is allocated, with its flag. What is left of the allocatable set is exactly the numbers the table lacks. |
| RouteTargetPool.AddFreeRows | networking_bagpipe/driver/type_route_target.py:217-220 | The loop adds exactly one free row per missing number and changes no existing row. |
| RouteTargetPool.RouteTargetTypeDriver.constructor | networking_bagpipe/driver/type_route_target.py:69-70 | A driver starts with no ranges over the existing table. |
| RouteTargetPool.RouteTargetTypeDriver.Initialize | networking_bagpipe/driver/type_route_target.py:75-79 | The ranges are those parsed from the configuration, the table is synchronised with them, and the table invariant holds. |
| RouteTargetPool.RouteTargetTypeDriver.AllocatableNumbers | networking_bagpipe/driver/type_route_target.py:189-197 | The loop computes exactly the union of the reasonable ranges. |
| RouteTargetPool.RouteTargetTypeDriver.SyncRouteTargetAllocations | networking_bagpipe/driver/type_route_target.py:185-220 | The table becomes `Sync` of the old table and the ranges. |
| RouteTargetPool.RouteTargetTypeDriver.ReserveProviderSegment | networking_bagpipe/driver/type_route_target.py:130-148 | The driver fails with `RouteTargetInUse` and leaves the table unchanged exactly when `Reserve` fails. Otherwise the table becomes `Reserve`'s table. |
| RouteTargetPool.RouteTargetTypeDriver.AllocateTenantSegment | networking_bagpipe/driver/type_route_target.py:150-162 | With no free row, the result is None and the table is unchanged. Otherwise exactly one formerly free row becomes allocated, and a `route_target` segment with its number and no physical network is returned. |
| RouteTargetPool.RouteTargetTypeDriver.ReleaseSegment | networking_bagpipe/driver/type_route_target.py:164-183 | The table becomes `Release` of the old table. The loop over the ranges decides whether the row is kept. |
| AgentValues.FilterOut | networking_bagpipe_l2/agent/bagpipe_bgp_agent.py:282-283 | The filtered list holds exactly the elements of the first list that are not in the second, and is no longer. |
| AgentValues.FilterOutConcat | networking_bagpipe_l2/agent/bagpipe_bgp_agent.py:282-283 | Filtering distributes over concatenation, so the order of kept elements is preserved. |
| AgentValues.RemoveRouteTarget | networking_bagpipe_l2/agent/bagpipe_bgp_agent.py:281-284 | The result has exactly the common keys. Each value is the first dict's list filtered by the second's (`FilterOut`, so in the first list's order), no longer than the first's. |
| AgentValues.ConcatenateRouteTargetAsWritten | networking_bagpipe_l2/agent/bagpipe_bgp_agent.py:277-279 | As written: exactly the common keys, each mapped to None. |
| AgentValues.ConcatenateAsWrittenLosesRouteTargets | networking_bagpipe_l2/agent/bagpipe_bgp_agent.py:277-279 | Counterexample: `import_rt` lists `[64512:1]` and `[64512:2]` concatenate to None as written, and to both targets as intended. |
| AgentValues.ConcatenateRouteTarget | networking_bagpipe_l2/agent/bagpipe_bgp_agent.py:277-279 | Corrected: exactly the common keys. Each value is a list as long as both inputs together, holding exactly the targets of either. |
| AgentValues.RemoveAfterConcatenate | networking_bagpipe_l2/agent/bagpipe_bgp_agent.py:277-284 | Removing the second dict's targets from the corrected concatenation gives back the first dict's, on the common keys, when the two share no target. |
| AgentValues.CopyLocalPortAndNetworkDetails | networking_bagpipe_l2/agent/bagpipe_bgp_agent.py:286-294 | The copy has exactly `local_port`, `mac_address`, `ip_address`, `gateway_ip`, plus `linuxbr` when present, with their values. |
| AgentValues.GetLocalPortWithEvpnDetails | networking_bagpipe_l2/agent/bagpipe_bgp_agent.py:296-327 | Corrected: the E-VPN payload always has an instance id and a VPN type, which is `evpn` unless the update dict sets it, and every copied key of the attachment. For a port on both an E-VPN and an E-VPN BGP VPN it merges the corrected concatenation. |
| AgentValues.EvpnPayloadAsWrittenLosesRouteTargets | networking_bagpipe_l2/agent/bagpipe_bgp_agent.py:306-317 | As written, for a port on both an E-VPN and an E-VPN BGP VPN with no route targets given, every shared key of the payload is None, where the corrected payload has a list. Under every other key the two payloads agree. |
| AgentValues.GetLocalPortWithIpvpnDetails | networking_bagpipe_l2/agent/bagpipe_bgp_agent.py:329-353 | The IP-VPN payload always has an instance id, a VPN type, which is `ipvpn` unless the update dict sets it, a local port and every copied key of the attachment. |
| AgentValues.EvpnPayloadShape | networking_bagpipe_l2/agent/bagpipe_bgp_agent.py:296-327 | The E-VPN payload takes every key of its update dict. Otherwise it holds exactly the copied details, `vpn_instance_id` suffixed `_evpn`, and `vpn_type` `evpn`. |
| AgentValues.IpvpnPayloadShape | networking_bagpipe_l2/agent/bagpipe_bgp_agent.py:329-353 | The IP-VPN payload takes every key of its update dict. Otherwise it holds exactly the copied details with `vpn_instance_id` suffixed `_ipvpn` and `vpn_type` `ipvpn`. `local_port` becomes `{evpn: {id: <id>_evpn}}` when `evpn` or `evpn_bgpvpn` is present. |
| AgentValues.IpvpnPlugsIntoEvpnInstance | networking_bagpipe_l2/agent/bagpipe_bgp_agent.py:296-345 | For a port on an E-VPN, the IP-VPN payload's local port names the very instance the E-VPN payload attaches to. |
| AgentValues.EvpnPayloadMergesRouteTargets | networking_bagpipe_l2/agent/bagpipe_bgp_agent.py:306-317 | Corrected: for a port on both an E-VPN and an E-VPN BGP VPN, each shared key of the payload carries both lists of route targets. Those of the BGP VPN can be subtracted back out. |
| BgpAgent.StatusStep | networking_bagpipe_l2/agent/bagpipe_bgp_agent.py:200-227 | A replay happens iff the ping differs from `seq_num` and is not -1, and then the state becomes (ping, UP). Otherwise `seq_num` is kept. The status is DOWN afterwards iff the ping failed with `seq_num` not -1, or the ping equals `seq_num` while already DOWN. |
| BgpAgent.StatusStepIdempotent | networking_bagpipe_l2/agent/bagpipe_bgp_agent.py:203-227 | A second poll with the same answer changes nothing and replays nothing. |
| BgpAgent.DownUntilRestart | networking_bagpipe_l2/agent/bagpipe_bgp_agent.py:200-227 | Once DOWN, the agent stays DOWN without replaying while pings fail or return the old sequence number. |
| BgpAgent.NetworkReplayCovers | networking_bagpipe_l2/agent/bagpipe_bgp_agent.py:220-223 | A network's replay contains every attach request of each of its attachments. |
| BgpAgent.ReplayCoversNetwork | networking_bagpipe_l2/agent/bagpipe_bgp_agent.py:219-223 | A registry replay contains the replay of every network visited. |
| BgpAgent.ReplayCoversRegistry | networking_bagpipe_l2/agent/bagpipe_bgp_agent.py:214-223 | After a restart, every attach request of every registered attachment is re-sent, in whatever order networks are visited. |
| BgpAgent.FindAttachment | networking_bagpipe_l2/agent/bagpipe_bgp_agent.py:243-257 | The result is the index of the first attachment with the port's id, or None iff no attachment has it. |
| BgpAgent.PortDetailsForAttach | networking_bagpipe_l2/agent/bagpipe_bgp_agent.py:454-481 | The new attachment holds exactly the port id and the network id, plus `local_port` and `linuxbr` when the bridge manager names them. |
| BgpAgent.AttachInfo | networking_bagpipe_l2/agent/bagpipe_bgp_agent.py:506-510 | `l3vpn` is renamed `ipvpn_bgpvpn` and `l2vpn` is renamed `evpn_bgpvpn`, values kept. Every other key is unchanged. |
| BgpAgent.AddExistingPort | networking_bagpipe_l2/agent/bagpipe_bgp_agent.py:486-501 | For a registered port, the list keeps its length and only that entry changes. `evpn` is overwritten, `ipvpn_bgpvpn` comes from `l3vpn` and `evpn_bgpvpn` from `l2vpn`. Every other key is kept. |
| BgpAgent.AddNewPort | networking_bagpipe_l2/agent/bagpipe_bgp_agent.py:502-514 | For a new port, exactly one entry is appended. It has the port and network ids and the port info with `l3vpn`/`l2vpn` renamed. |
| BgpAgent.AddThenFind | networking_bagpipe_l2/agent/bagpipe_bgp_agent.py:484-516 | After adding, the port is found, and the entry found is the details returned. |
| BgpAgent.AddKeepsPortsUnique | networking_bagpipe_l2/agent/bagpipe_bgp_agent.py:484-516 | Adding a port keeps a network's port ids unique. |
| BgpAgent.RemovedAt | networking_bagpipe_l2/agent/bagpipe_bgp_agent.py:267-275 | An entry with `evpn`, `evpn_bgpvpn` or `ipvpn_bgpvpn` is kept. Otherwise it is deleted and the others keep their order. The network disappears iff that empties its list, and other networks are unchanged. |
| BgpAgent.AddThenRemove | networking_bagpipe_l2/agent/bagpipe_bgp_agent.py:267-275 | Adding a port without VPN details and removing its entry gives back the registry. |
| BgpAgent.UpdatedBgpvpnDetails | networking_bagpipe_l2/agent/bagpipe_bgp_agent.py:617-629 | Given route targets replace `ipvpn_bgpvpn`/`evpn_bgpvpn`. Absent ones, and every other key, leave the attachment as it was. |
| BgpAgent.ReducedVpn | networking_bagpipe_l2/agent/bagpipe_bgp_agent.py:708-718 | After the detached targets are subtracted, the VPN key is kept with the reduced dict iff some import or export target remains. Other keys are unchanged. |
| BgpAgent.ReducedVpnReady | networking_bagpipe_l2/agent/bagpipe_bgp_agent.py:708-718 | A replayable attachment stays replayable after one VPN's route targets are reduced. |
| BgpAgent.UnplugIpvpnDetails | networking_bagpipe_l2/agent/bagpipe_bgp_agent.py:687-722 | The IP-VPN half of a detach changes only `ipvpn_bgpvpn` and leaves a well-formed attachment. |
| BgpAgent.UnplugEvpnDetails | networking_bagpipe_l2/agent/bagpipe_bgp_agent.py:724-760 | The E-VPN half of a detach changes only `evpn_bgpvpn` and leaves a well-formed attachment. |
| BgpAgent.BgpvpnUnplugDetails | networking_bagpipe_l2/agent/bagpipe_bgp_agent.py:678-760 | A BGP VPN detach changes only `ipvpn_bgpvpn` and `evpn_bgpvpn` and leaves a well-formed attachment. |
| BgpAgent.UnplugPostsOnlyWhenUp | networking_bagpipe_l2/agent/bagpipe_bgp_agent.py:678-760 | While DOWN no detach is posted. While UP, one detach is posted per BGP VPN kind the port is on. When both posts fail, the attachment is unchanged. |
| BgpAgent.ReduceByOwnRouteTargets | networking_bagpipe_l2/agent/bagpipe_bgp_agent.py:701-718 | Subtracting an attachment's own route targets for a VPN drops that VPN's key. |
| BgpAgent.UnplugWithoutGivenForgets | networking_bagpipe_l2/agent/bagpipe_bgp_agent.py:695-758 | A successful detach without given route targets removes both BGP VPN keys. |
| BgpAgent.UpdateThenUnplugRestores | networking_bagpipe_l2/agent/bagpipe_bgp_agent.py:617-760 | Attaching to BGP VPNs with some route targets and detaching with the same ones gives back the attachment. |
| BgpAgent.VpnLessAttachmentSkipped | networking_bagpipe_l2/agent/bagpipe_bgp_agent.py:219-223 | An attachment with no VPN key, whatever else it holds, can be replayed, and unplugged with any given dicts. The replay posts nothing, and the unplug posts nothing and leaves it unchanged. |
| BgpAgent.UnplugWhileDownForgets | networking_bagpipe_l2/agent/bagpipe_bgp_agent.py:379-389 | While DOWN, a detach posts nothing, yet the route targets are subtracted as after a successful post. |
| BgpAgent.BaGPipeBGPAgent.constructor | networking_bagpipe_l2/agent/bagpipe_bgp_agent.py:182-184 | The agent starts with an empty registry, DOWN, sequence number 0 and nothing posted. |
| BgpAgent.BaGPipeBGPAgent.SendAttachLocalPort | networking_bagpipe_l2/agent/bagpipe_bgp_agent.py:368-377 | Exactly one attach is posted iff UP. A failed post is swallowed. |
| BgpAgent.BaGPipeBGPAgent.SendDetachLocalPort | networking_bagpipe_l2/agent/bagpipe_bgp_agent.py:379-389 | Exactly one detach is posted iff UP. The error is re-raised iff UP and the post failed. |
| BgpAgent.BaGPipeBGPAgent.DoLocalPortBagpipePlug | networking_bagpipe_l2/agent/bagpipe_bgp_agent.py:520-528 | While UP, an E-VPN attach is posted for a port on an E-VPN network; nothing otherwise. Only a port on an E-VPN network must carry the keys the builder reads. |
| BgpAgent.BaGPipeBGPAgent.DoLocalPortBgpvpnPlug | networking_bagpipe_l2/agent/bagpipe_bgp_agent.py:662-676 | While UP, the E-VPN attach is posted, then the IP-VPN attach, for the BGP VPN kinds the port is on. Only those kinds' builders' keys are required. |
| BgpAgent.BaGPipeBGPAgent.ReplayNetwork | networking_bagpipe_l2/agent/bagpipe_bgp_agent.py:219-223 | The loop posts exactly the replay of the network's attachments, in list order. An attachment with no VPN key needs no other key. |
| BgpAgent.BaGPipeBGPAgent.CheckBagpipeBgpStatus | networking_bagpipe_l2/agent/bagpipe_bgp_agent.py:192-227 | The new (sequence number, status) is `StatusStep` of the old one. The posted requests grow by the full registry replay exactly when `StatusStep` says so. A failed ping always leaves the agent DOWN, with its sequence number and nothing posted. The registry and the network order are required to be replayable only on a poll that replays. |
| BgpAgent.BaGPipeBGPAgent.GetRegAttachmentForPort | networking_bagpipe_l2/agent/bagpipe_bgp_agent.py:236-257 | The lookup returns the first matching index and entry, or `AttachmentNotFound` iff none matches. An unknown network is registered with an empty list, as the defaultdict does. |
| BgpAgent.BaGPipeBGPAgent.RemoveRegAttachmentForIndex | networking_bagpipe_l2/agent/bagpipe_bgp_agent.py:260-275 | The registry becomes `RemovedAt`. |
| BgpAgent.BaGPipeBGPAgent.AddLocalPortDetails | networking_bagpipe_l2/agent/bagpipe_bgp_agent.py:484-516 | The network's list and the returned details are those `AddedAttachments` gives (see `AddExistingPort` and `AddNewPort`). Other networks are unchanged. |
| BgpAgent.BaGPipeBGPAgent.UpdateLocalPortBgpvpnDetails | networking_bagpipe_l2/agent/bagpipe_bgp_agent.py:617-629 | Only the indexed entry changes, to `UpdatedBgpvpnDetails`, which is also returned. |
| BgpAgent.BaGPipeBGPAgent.DetachIpvpn | networking_bagpipe_l2/agent/bagpipe_bgp_agent.py:687-722 | The IP-VPN half posts `UnplugIpvpnRequests` and yields `UnplugIpvpnDetails`. It requires nothing of an attachment without `ipvpn_bgpvpn`. |
| BgpAgent.BaGPipeBGPAgent.DetachEvpn | networking_bagpipe_l2/agent/bagpipe_bgp_agent.py:724-760 | The E-VPN half posts `UnplugEvpnRequests` and yields `UnplugEvpnDetails`. It requires nothing of an attachment without `evpn_bgpvpn`. |
| BgpAgent.BaGPipeBGPAgent.DoLocalPortBgpvpnUnplug | networking_bagpipe_l2/agent/bagpipe_bgp_agent.py:678-760 | The entry becomes `BgpvpnUnplugDetails` and the posted requests grow by `BgpvpnUnplugRequests`: IP-VPN first, and the E-VPN payload is built from the entry as the IP-VPN half left it. An entry with no BGP VPN key may hold anything. |

## Left out

- HTTP, JSON and the BGP component's answers are not modelled. A ping answer is a parameter, with -1 for a failed ping, as `request_ping` returns. A post's success is a boolean. Posted requests are recorded in the agent's `sent` trace.
- The polling loop, RPC wiring, OVS bridge and patch-port setup, ARP responder calls and the process exit are I/O and are left out.
- `_do_local_port_bagpipe_unplug`, `bagpipe_port_attach/detach`, the BGP VPN connection callbacks and `bgpvpn_port_attach/detach` are left out. They only chain the modelled operations with RPC arguments. `_attach_all_ports_on_bgpvpn_network` and `_detach_all_ports_from_bgpvpn_network` are left out because they loop over the modelled single-port operations.
- The agent locks and the VRF's `utils.synchronized` are left out. Every operation is one atomic step.
- SQLAlchemy sessions, transactions and row locks are left out. The allocation table is a map from number to flag.
- Logging and the looking-glass methods are left out.
- The `VPNInstance` base class is not part of this model. Its encapsulation negotiation (`_checkEncaps`) is taken as the intersection of the driver's and the route's encapsulations. Its route-entry constructor is taken as a record of its arguments. The best-path tracker is not modelled, and neither is the `lbConsistentHashOrder` argument.
- The exabgp classes are plain datatypes.
- `DataplaneDrivers.NewDataplaneDriver`: the `uname -r` probe is replaced by a kernel-version parameter, and the `StrictVersion` comparison by a comparison of (major, minor, patch). Only the "warning, never an error" outcome is modelled.
- `DataplaneDrivers.NewDataplaneDriver`: the abstract-class assertion on `dataplaneInstanceClass` is not modelled.
- `_initReal`, `resetState` and `_cleanupReal` of other drivers are not modelled. They are counted by ghost counters.
- `DataplaneDrivers.DataplaneDriver.InitializeDataplaneInstance`: the extra keyword arguments of the instance class are dropped.
- `RouteTargetPool.ValidateProviderSegment`: the source names the first prohibited key in dict order; the model reports the set of all prohibited keys.
- `RouteTargetPool.RouteTargetTypeDriver.AllocateTenantSegment`: the database's `first()` picks some free row; the model picks any free row.
- `RouteTargetPool.RouteTargetTypeDriver.ReserveProviderSegment` requires an integer segmentation id. Validation establishes it before reservation.
- `RouteTargetPool.RouteTargetTypeDriver.ReleaseSegment` requires an integer segmentation id. The KeyError on a segment without one is not modelled.
- `RouteTargetPool.ParseRangeEntry` reads `int()` as an optional sign followed by ASCII decimal digits. Other spellings Python accepts, such as non-ASCII digits, are not modelled.
- `BgpAgent.FindAttachment` treats an attachment without `port_id` as a non-match; the source raises KeyError there.
- `AgentValues.GetLocalPortWithEvpnDetails`, `BgpAgent.BaGPipeBGPAgent.DoLocalPortBagpipePlug`, `BgpAgent.BaGPipeBGPAgent.DoLocalPortBgpvpnPlug`, `BgpAgent.BaGPipeBGPAgent.ReplayNetwork`, `BgpAgent.BaGPipeBGPAgent.CheckBagpipeBgpStatus`, `BgpAgent.BaGPipeBGPAgent.DetachEvpn` and `BgpAgent.BaGPipeBGPAgent.DoLocalPortBgpvpnUnplug` post the corrected E-VPN payload. As written, a port on both an E-VPN and an E-VPN BGP VPN with no route targets given is posted with None under every shared route target key (`AgentValues.GetLocalPortWithEvpnDetailsAsWritten`, see Findings).
- `AgentValues.GetLocalPortWithEvpnDetails` and `AgentValues.GetLocalPortWithIpvpnDetails` require the keys they read. The KeyError the source raises for a missing key is not modelled. The plug, replay and detach operations built on them require those keys only of an attachment on the VPN kind they handle.
- `BgpAgent.BaGPipeBGPAgent.DetachIpvpn`, `BgpAgent.BaGPipeBGPAgent.DetachEvpn` and `BgpAgent.BaGPipeBGPAgent.DoLocalPortBgpvpnUnplug` require, of an attachment on the VPN kind they detach, that the stored BGP VPN dict they subtract from hold `import_rt` and `export_rt` lists, and that a non-empty given dict hold both lists too. The KeyError or TypeError the source raises otherwise is not modelled. An attachment without that VPN key may be given any dict.
- `BgpAgent.BaGPipeBGPAgent.CheckBagpipeBgpStatus` visits networks in an order supplied by the caller, because Python 2 dict iteration order is unspecified. `ReplayCoversRegistry` holds for every order.
- `BgpAgent.UpdatedBgpvpnDetails`: None arguments are modelled by the empty dict. The source treats both alike since both are false.
- `BgpAgent.PortDetailsForAttach`: the agent-type branches become optional `local_port` and `linuxbr` values, which the bridge managers would name.
- `BgpAgent.BaGPipeBGPAgent.AddLocalPortDetails`: the source mutates the caller's `port_info` when renaming `l3vpn`/`l2vpn`. That mutation is not visible in the model.

## Findings

| source | as written | input that shows it | evidently intended | confidence | as-written member | corrected member |
|---|---|---|---|---|---|---|
| networking_bagpipe_l2/agent/bagpipe_bgp_agent.py:277-279 | Each common key maps to the result of `list.append`, which is None; `append` would also nest the second list rather than extend. | `{import_rt: [64512:1]}` and `{import_rt: [64512:2]}` give `{import_rt: None}`, so the E-VPN payload of a port on both an E-VPN and an E-VPN BGP VPN carries no route targets | the first list followed by the second | high, not executed | AgentValues.EvpnPayloadAsWrittenLosesRouteTargets | AgentValues.ConcatenateRouteTarget |
| src/bagpipe/bgp/vpn/ipvpn/__init__.py:105-106 | `removeDataplaneForRemoteEndpoint` is called with four arguments, but its required `encaps` parameter (bagpipe/bgp/vpn/dataplane_drivers.py:182-183 and 221-222) makes it take five, so the call raises a TypeError | withdrawal of any route that `_newBestRoute` installed | pass the negotiated encapsulations, as the setup call does | high that it raises; the encapsulation value passed is an inference; not executed | IpVpn.WithdrawalAsWrittenNeverRemoves | IpVpn.BestRouteRemovedCalls |

The as-written concatenation is `AgentValues.ConcatenateRouteTargetAsWritten`, with the concrete input in `AgentValues.ConcatenateAsWrittenLosesRouteTargets`. The as-written E-VPN payload is `AgentValues.GetLocalPortWithEvpnDetailsAsWritten`, and `AgentValues.EvpnPayloadAsWrittenLosesRouteTargets` proves what it loses. The corrected concatenation is `AgentValues.ConcatenateRouteTarget`, with `AgentValues.RemoveAfterConcatenate` and `AgentValues.EvpnPayloadMergesRouteTargets` proved about it. The corrected E-VPN payload builder `AgentValues.GetLocalPortWithEvpnDetails` uses it. The as-written withdrawal is `IpVpn.BestRouteRemovedCallsAsWritten`. The corrected one is `IpVpn.BestRouteRemovedCalls`. `IpVpn.SetupThenRemoveSameTriple` proves it repeats the setup call's arguments, and `IpVpn.VRF.BestRouteRemoved` performs it.
