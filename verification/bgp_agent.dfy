/** The BGP VPN layer-2 agent: its registry of attached ports (network id to
    a list of attachment dicts), the status it derives from the BGP
    component's ping sequence number, and the attach/detach requests it
    posts. HTTP is abstracted: a ping is a parameter, a post's success a
    boolean, and the posted requests are recorded in `sent`. */
module BgpAgent {
  import opened Wrappers
  import opened AgentValues

  datatype Status = Up | Down

  /** A request posted to the BGP component. */
  datatype Request = Attach(payload: Details) | Detach(payload: Details)

  datatype AgentError = AttachmentNotFound(localPort: string)

  /** Network id to the attachments registered on it, in registration order. */
  type Registry = map<string, seq<Details>>

  // ---------------------------------------------------------------------
  // Status machine

  datatype StatusState = StatusState(seqNum: int, status: Status)

  /** One status poll with the ping answer `ping` (-1 when the ping failed):
      the next state, and whether all attachments are replayed. */
  function StatusStep(s: StatusState, ping: int): (r: (StatusState, bool))
    ensures r.1 <==> ping != s.seqNum && ping != -1
    ensures r.1 ==> r.0 == StatusState(ping, Up)
    ensures !r.1 ==> r.0.seqNum == s.seqNum
    ensures r.0.status == Down <==> (ping == -1 && s.seqNum != -1) || (ping == s.seqNum && s.status == Down)
  {
    if ping != s.seqNum then
      if ping != -1 then (StatusState(ping, Up), true)
      else (StatusState(s.seqNum, Down), false)
    else (s, false)
  }

  /** Polling twice with the same answer: the second poll changes nothing
      and replays nothing. */
  lemma StatusStepIdempotent(s: StatusState, ping: int)
    ensures StatusStep(StatusStep(s, ping).0, ping) == (StatusStep(s, ping).0, false)
  {
  }

  /** The state after a sequence of polls, and whether any of them replayed. */
  function StatusRun(s: StatusState, pings: seq<int>): (StatusState, bool) {
    if pings == [] then (s, false)
    else
      var prev := StatusRun(s, pings[..|pings| - 1]);
      var step := StatusStep(prev.0, pings[|pings| - 1]);
      (step.0, prev.1 || step.1)
  }

  /** Once DOWN, the agent stays DOWN, replaying nothing, for as long as the
      component answers with the sequence number it had before the failed
      ping: only a component restart brings it back UP. */
  lemma {:induction false} DownUntilRestart(s: StatusState, pings: seq<int>)
    requires s.status == Down
    requires forall i :: 0 <= i < |pings| ==> pings[i] == s.seqNum || pings[i] == -1
    ensures StatusRun(s, pings) == (s, false)
  {
    if pings != [] {
      DownUntilRestart(s, pings[..|pings| - 1]);
    }
  }

  // ---------------------------------------------------------------------
  // Attachments and the replay after a restart

  /** What `_do_local_port_bagpipe_plug` reads: nothing unless the port is
      on an E-VPN network, and then what the E-VPN builder reads. */
  predicate BagpipePlugReady(d: Details) {
    EVPN in d ==> EvpnReady(d, map[])
  }

  /** What `_do_local_port_bgpvpn_plug` reads: the E-VPN builder's keys when
      the port is on an E-VPN BGP VPN, the IP-VPN builder's when it is on an
      IP-VPN BGP VPN, and nothing otherwise. */
  predicate BgpvpnPlugReady(d: Details) {
    && (EVPN_BGPVPN in d ==> EvpnReady(d, map[]))
    && (IPVPN_BGPVPN in d ==> IpvpnReady(d, map[]))
  }

  /** What the replay of a registered attachment reads: an attachment with
      no VPN key is skipped without reading anything. */
  predicate Ready(d: Details) {
    BagpipePlugReady(d) && BgpvpnPlugReady(d)
  }

  predicate RegistryReady(reg: Registry) {
    forall n, i :: n in reg && 0 <= i < |reg[n]| ==> Ready(reg[n][i])
  }

  /** `order` lists every network of the registry exactly once. */
  predicate EnumeratesKeys(order: seq<string>, reg: Registry) {
    && (forall n :: n in order ==> n in reg)
    && (forall n :: n in reg ==> n in order)
    && (forall i, j :: 0 <= i < j < |order| ==> order[i] != order[j])
  }

  /** Requests of `_do_local_port_bagpipe_plug`: the E-VPN attach of a port
      on an E-VPN network. */
  function BagpipePlugRequests(d: Details): seq<Request>
    requires BagpipePlugReady(d)
  {
    if EVPN in d then [Attach(GetLocalPortWithEvpnDetails(d, map[]))] else []
  }

  /** Requests of `_do_local_port_bgpvpn_plug`: the E-VPN, then the IP-VPN,
      attach of a port on BGP VPNs. */
  function BgpvpnPlugRequests(d: Details): seq<Request>
    requires BgpvpnPlugReady(d)
  {
    (if EVPN_BGPVPN in d then [Attach(GetLocalPortWithEvpnDetails(d, map[]))] else [])
    + (if IPVPN_BGPVPN in d then [Attach(GetLocalPortWithIpvpnDetails(d, map[]))] else [])
  }

  function AttachmentReplay(d: Details): seq<Request>
    requires Ready(d)
  {
    BagpipePlugRequests(d) + BgpvpnPlugRequests(d)
  }

  function NetworkReplay(list: seq<Details>): seq<Request>
    requires forall i :: 0 <= i < |list| ==> Ready(list[i])
  {
    if list == [] then []
    else NetworkReplay(list[..|list| - 1]) + AttachmentReplay(list[|list| - 1])
  }

  /** The requests replayed after a restart, networks taken in `order`. */
  function ReplayRequests(reg: Registry, order: seq<string>): seq<Request>
    requires forall n :: n in order ==> n in reg
    requires RegistryReady(reg)
  {
    if order == [] then []
    else ReplayRequests(reg, order[..|order| - 1]) + NetworkReplay(reg[order[|order| - 1]])
  }

  lemma UpdateOverrides<K, V>(m: map<K, V>, k: K, a: V, b: V)
    ensures (if k in m then m else m[k := a])[k := b] == m[k := b]
  {
  }

  lemma AppendAssoc<T>(a: seq<T>, b: seq<T>, c: seq<T>)
    ensures a + b + c == a + (b + c)
  {
  }

  lemma NetworkReplayStep(list: seq<Details>, i: nat)
    requires forall j :: 0 <= j < |list| ==> Ready(list[j])
    requires i < |list|
    ensures NetworkReplay(list[..i + 1]) == NetworkReplay(list[..i]) + AttachmentReplay(list[i])
  {
    assert list[..i + 1][..i] == list[..i];
  }

  lemma ReplayRequestsStep(reg: Registry, order: seq<string>, k: nat)
    requires forall n :: n in order ==> n in reg
    requires RegistryReady(reg)
    requires k < |order|
    ensures ReplayRequests(reg, order[..k + 1]) == ReplayRequests(reg, order[..k]) + NetworkReplay(reg[order[k]])
  {
    assert order[..k + 1][..k] == order[..k];
  }

  lemma {:induction false} NetworkReplayCovers(list: seq<Details>, i: nat)
    requires forall j :: 0 <= j < |list| ==> Ready(list[j])
    requires i < |list|
    ensures forall q :: q in AttachmentReplay(list[i]) ==> q in NetworkReplay(list)
  {
    if i < |list| - 1 {
      NetworkReplayCovers(list[..|list| - 1], i);
    }
  }

  lemma {:induction false} ReplayCoversNetwork(reg: Registry, order: seq<string>, j: nat)
    requires forall n :: n in order ==> n in reg
    requires RegistryReady(reg)
    requires j < |order|
    ensures forall q :: q in NetworkReplay(reg[order[j]]) ==> q in ReplayRequests(reg, order)
  {
    if j < |order| - 1 {
      ReplayCoversNetwork(reg, order[..|order| - 1], j);
    }
  }

  /** A replay re-sends every attach request of every registered
      attachment, whatever the order the networks are visited in. */
  lemma ReplayCoversRegistry(reg: Registry, order: seq<string>, net: string, i: nat)
    requires EnumeratesKeys(order, reg) && RegistryReady(reg)
    requires net in reg && i < |reg[net]|
    ensures forall q :: q in AttachmentReplay(reg[net][i]) ==> q in ReplayRequests(reg, order)
  {
    var j :| 0 <= j < |order| && order[j] == net;
    NetworkReplayCovers(reg[net], i);
    ReplayCoversNetwork(reg, order, j);
  }

  // ---------------------------------------------------------------------
  // Registry operations as functions of the registry

  function Lookup(reg: Registry, net: string): seq<Details> {
    if net in reg then reg[net] else []
  }

  predicate IsPort(d: Details, portId: string) {
    PORT_ID in d && d[PORT_ID] == Str(portId)
  }

  /** The index of the first attachment of port `portId`. */
  function FindAttachment(list: seq<Details>, portId: string): (r: Option<nat>)
    ensures r.Some? ==> r.value < |list| && IsPort(list[r.value], portId)
    ensures r.Some? ==> forall j :: 0 <= j < r.value ==> !IsPort(list[j], portId)
    ensures r.None? <==> forall j :: 0 <= j < |list| ==> !IsPort(list[j], portId)
  {
    if list == [] then None
    else if IsPort(list[0], portId) then Some(0)
    else match FindAttachment(list[1..], portId)
      case Some(i) => Some(i + 1)
      case None => None
  }

  /** `l3vpn` renamed `ipvpn_bgpvpn` and `l2vpn` renamed `evpn_bgpvpn`. */
  function AttachInfo(portInfo: Details): (r: Details)
    ensures L3VPN !in r && L2VPN !in r
    ensures L3VPN in portInfo ==> IPVPN_BGPVPN in r && r[IPVPN_BGPVPN] == portInfo[L3VPN]
    ensures L2VPN in portInfo ==> EVPN_BGPVPN in r && r[EVPN_BGPVPN] == portInfo[L2VPN]
    ensures L3VPN !in portInfo ==> (IPVPN_BGPVPN in r <==> IPVPN_BGPVPN in portInfo)
    ensures L2VPN !in portInfo ==> (EVPN_BGPVPN in r <==> EVPN_BGPVPN in portInfo)
    ensures forall k :: k != L3VPN && k != L2VPN && k != IPVPN_BGPVPN && k != EVPN_BGPVPN ==>
      (k in r <==> k in portInfo) && (k in r ==> r[k] == portInfo[k])
  {
    var renamed := if L3VPN in portInfo then (portInfo - {L3VPN})[IPVPN_BGPVPN := portInfo[L3VPN]] else portInfo;
    if L2VPN in renamed then (renamed - {L2VPN})[EVPN_BGPVPN := renamed[L2VPN]] else renamed
  }

  /** `_get_port_details_for_attach`: the port and network ids, and the
      local port and Linux bridge the agent's bridge manager names. */
  function PortDetailsForAttach(portId: string, networkId: string, localPort: Option<Value>, linuxbr: Option<Value>): (r: Details)
    ensures PORT_ID in r && r[PORT_ID] == Str(portId)
    ensures VPN_INSTANCE_ID in r && r[VPN_INSTANCE_ID] == Str(networkId)
    ensures LOCAL_PORT in r <==> localPort.Some?
    ensures localPort.Some? ==> r[LOCAL_PORT] == localPort.value
    ensures LINUXBR in r <==> linuxbr.Some?
    ensures linuxbr.Some? ==> r[LINUXBR] == linuxbr.value
    ensures forall k :: k in r ==> k == PORT_ID || k == VPN_INSTANCE_ID || k == LOCAL_PORT || k == LINUXBR
  {
    var ids := map[PORT_ID := Str(portId), VPN_INSTANCE_ID := Str(networkId)];
    var withPort := if localPort.Some? then ids[LOCAL_PORT := localPort.value] else ids;
    if linuxbr.Some? then withPort[LINUXBR := linuxbr.value] else withPort
  }

  /** An existing attachment overwritten with the port info's VPN details. */
  function UpdatedAttachment(d: Details, portInfo: Details): Details {
    var d1 := if EVPN in portInfo then d[EVPN := portInfo[EVPN]] else d;
    var d2 := if L3VPN in portInfo then d1[IPVPN_BGPVPN := portInfo[L3VPN]] else d1;
    if L2VPN in portInfo then d2[EVPN_BGPVPN := portInfo[L2VPN]] else d2
  }

  /** A network's attachment list after `_add_local_port_details`, and the
      details it returns. */
  function AddedAttachments(list: seq<Details>, networkId: string, portId: string, portInfo: Details,
                            localPort: Option<Value>, linuxbr: Option<Value>): (seq<Details>, Details)
  {
    match FindAttachment(list, portId)
    case Some(i) =>
      var d := UpdatedAttachment(list[i], portInfo);
      (list[i := d], d)
    case None =>
      var d := PortDetailsForAttach(portId, networkId, localPort, linuxbr) + AttachInfo(portInfo);
      (list + [d], d)
  }
  /** For a registered port, `_add_local_port_details` overwrites its VPN
      details in place: the list keeps its length, the other attachments
      and the attachment's other keys are unchanged. */
  lemma AddExistingPort(list: seq<Details>, networkId: string, portId: string, portInfo: Details,
                        localPort: Option<Value>, linuxbr: Option<Value>, i: nat)
    requires FindAttachment(list, portId) == Some(i)
    ensures var r := AddedAttachments(list, networkId, portId, portInfo, localPort, linuxbr);
      && |r.0| == |list| && r.0 == list[i := r.1]
      && (forall k :: k != EVPN && k != IPVPN_BGPVPN && k != EVPN_BGPVPN ==>
            (k in r.1 <==> k in list[i]) && (k in r.1 ==> r.1[k] == list[i][k]))
      && (EVPN in portInfo ==> EVPN in r.1 && r.1[EVPN] == portInfo[EVPN])
      && (L3VPN in portInfo ==> IPVPN_BGPVPN in r.1 && r.1[IPVPN_BGPVPN] == portInfo[L3VPN])
      && (L2VPN in portInfo ==> EVPN_BGPVPN in r.1 && r.1[EVPN_BGPVPN] == portInfo[L2VPN])
  {
  }

  /** For a new port, exactly one attachment is appended: its port and
      network ids, with the port info's `l3vpn`/`l2vpn` renamed. */
  lemma AddNewPort(list: seq<Details>, networkId: string, portId: string, portInfo: Details,
                   localPort: Option<Value>, linuxbr: Option<Value>)
    requires FindAttachment(list, portId).None?
    ensures var r := AddedAttachments(list, networkId, portId, portInfo, localPort, linuxbr);
      && r.0 == list + [r.1]
      && PORT_ID in r.1 && VPN_INSTANCE_ID in r.1
      && (PORT_ID !in portInfo ==> r.1[PORT_ID] == Str(portId))
      && (VPN_INSTANCE_ID !in portInfo ==> r.1[VPN_INSTANCE_ID] == Str(networkId))
      && L3VPN !in r.1 && L2VPN !in r.1
      && (L3VPN in portInfo ==> IPVPN_BGPVPN in r.1 && r.1[IPVPN_BGPVPN] == portInfo[L3VPN])
      && (L2VPN in portInfo ==> EVPN_BGPVPN in r.1 && r.1[EVPN_BGPVPN] == portInfo[L2VPN])
      && (forall k :: k in portInfo && k != L3VPN && k != L2VPN && k != IPVPN_BGPVPN && k != EVPN_BGPVPN ==>
            k in r.1 && r.1[k] == portInfo[k])
  {
  }


  /** Once added, a port is found at the place of the details returned. */
  lemma AddThenFind(list: seq<Details>, networkId: string, portId: string, portInfo: Details,
                    localPort: Option<Value>, linuxbr: Option<Value>)
    requires PORT_ID !in portInfo
    ensures var r := AddedAttachments(list, networkId, portId, portInfo, localPort, linuxbr);
      && FindAttachment(r.0, portId).Some?
      && r.0[FindAttachment(r.0, portId).value] == r.1
  {
    var r := AddedAttachments(list, networkId, portId, portInfo, localPort, linuxbr);
    match FindAttachment(list, portId)
    case Some(i) =>
      assert IsPort(r.0[i], portId);
      assert forall j :: 0 <= j < i ==> r.0[j] == list[j];
    case None =>
      assert IsPort(r.0[|list|], portId);
      assert forall j :: 0 <= j < |list| ==> r.0[j] == list[j];
  }

  /** No two attachments of a network are for the same port. */
  predicate UniquePorts(list: seq<Details>) {
    forall i, j :: 0 <= i < j < |list| && PORT_ID in list[i] && PORT_ID in list[j] ==> list[i][PORT_ID] != list[j][PORT_ID]
  }

  /** Adding a port keeps a network's ports unique, as long as the port
      info does not carry a port id of its own. */
  lemma AddKeepsPortsUnique(list: seq<Details>, networkId: string, portId: string, portInfo: Details,
                            localPort: Option<Value>, linuxbr: Option<Value>)
    requires UniquePorts(list)
    requires PORT_ID !in portInfo
    ensures UniquePorts(AddedAttachments(list, networkId, portId, portInfo, localPort, linuxbr).0)
  {
    var r := AddedAttachments(list, networkId, portId, portInfo, localPort, linuxbr);
    if FindAttachment(list, portId).None? {
      forall i | 0 <= i < |list| && PORT_ID in list[i]
        ensures list[i][PORT_ID] != r.1[PORT_ID]
      {
        assert !IsPort(list[i], portId);
      }
    }
  }

  predicate HasVpnKey(d: Details) {
    EVPN in d || EVPN_BGPVPN in d || IPVPN_BGPVPN in d
  }

  /** The registry after `_remove_reg_attachment_for_index`. */
  function RemovedAt(reg: Registry, net: string, index: nat): (r: Registry)
    requires net in reg && index < |reg[net]|
    ensures forall n :: n != net ==> (n in r <==> n in reg) && (n in r ==> r[n] == reg[n])
    ensures HasVpnKey(reg[net][index]) ==> r == reg
    ensures !HasVpnKey(reg[net][index]) ==>
      && (net in r <==> |reg[net]| > 1)
      && (net in r ==> |r[net]| == |reg[net]| - 1
                       && (forall j :: 0 <= j < index ==> r[net][j] == reg[net][j])
                       && (forall j :: index <= j < |r[net]| ==> r[net][j] == reg[net][j + 1]))
  {
    if HasVpnKey(reg[net][index]) then reg
    else
      var rest := reg[net][..index] + reg[net][index + 1..];
      if rest == [] then reg - {net} else reg[net := rest]
  }

  /** Adding a port with no VPN details to a network and removing it again
      gives back the registry (a network left with an empty list by an
      earlier lookup would be dropped instead). */
  lemma AddThenRemove(reg: Registry, networkId: string, portId: string, portInfo: Details,
                      localPort: Option<Value>, linuxbr: Option<Value>)
    requires FindAttachment(Lookup(reg, networkId), portId).None?
    requires networkId in reg ==> reg[networkId] != []
    requires !HasVpnKey(portInfo) && L3VPN !in portInfo && L2VPN !in portInfo
    ensures var list := Lookup(reg, networkId);
      RemovedAt(reg[networkId := AddedAttachments(list, networkId, portId, portInfo, localPort, linuxbr).0], networkId, |list|) == reg
  {
    var list := Lookup(reg, networkId);
    var r := AddedAttachments(list, networkId, portId, portInfo, localPort, linuxbr);
    assert !HasVpnKey(r.1);
    assert r.0[..|list|] + r.0[|list| + 1..] == list;
  }

  /** The attachment after `_update_local_port_bgpvpn_details`; an empty
      dict stands for None. */
  function UpdatedBgpvpnDetails(d: Details, ipvpnGiven: Details, evpnGiven: Details): (r: Details)
    ensures ipvpnGiven != map[] ==> IPVPN_BGPVPN in r && r[IPVPN_BGPVPN] == Dict(ipvpnGiven)
    ensures evpnGiven != map[] ==> EVPN_BGPVPN in r && r[EVPN_BGPVPN] == Dict(evpnGiven)
    ensures forall k :: (k != IPVPN_BGPVPN || ipvpnGiven == map[]) && (k != EVPN_BGPVPN || evpnGiven == map[]) ==>
      (k in r <==> k in d) && (k in r ==> r[k] == d[k])
  {
    var d1 := if ipvpnGiven != map[] then d[IPVPN_BGPVPN := Dict(ipvpnGiven)] else d;
    if evpnGiven != map[] then d1[EVPN_BGPVPN := Dict(evpnGiven)] else d1
  }

  /** The route targets that remain after a detach: the key is dropped when
      neither imported nor exported route targets remain. */
  function ReducedVpn(d: Details, key: string, removed: Details): (r: Details)
    requires key in d && IsRouteTargetDict(d[key]) && IsRouteTargetDict(Dict(removed))
    ensures forall k :: k != key ==> (k in r <==> k in d) && (k in r ==> r[k] == d[k])
    ensures var updated := RemoveRouteTarget(d[key].fields, removed);
      && (key in r <==> updated[IMPORT_RT].items != [] || updated[EXPORT_RT].items != [])
      && (key in r ==> r[key] == Dict(updated) && IsRouteTargetDict(r[key]))
  {
    var updated := RemoveRouteTarget(d[key].fields, removed);
    if updated[IMPORT_RT].items != [] || updated[EXPORT_RT].items != [] then d[key := Dict(updated)]
    else d - {key}
  }

  /** Reducing one VPN's route targets keeps a replayable attachment
      replayable. */
  lemma ReducedVpnReady(d: Details, key: string, removed: Details)
    requires key == IPVPN_BGPVPN || key == EVPN_BGPVPN
    requires key in d && IsRouteTargetDict(d[key]) && IsRouteTargetDict(Dict(removed))
    ensures Ready(d) ==> Ready(ReducedVpn(d, key, removed))
  {
    var r := ReducedVpn(d, key, removed);
    if Ready(d) && EVPN in r && EVPN_BGPVPN in r && key == EVPN_BGPVPN {
      assert forall k :: k in r[EVPN].fields && k in r[EVPN_BGPVPN].fields ==> k in d[EVPN_BGPVPN].fields;
    }
  }

  /** A route target dict given for an unplug: none (empty) or a route
      target dict. */
  predicate GivenOk(given: Details) {
    given == map[] || IsRouteTargetDict(Dict(given))
  }

  /** What the IP-VPN half of the unplug reads: nothing unless the port is
      on an IP-VPN BGP VPN, and then the IP-VPN builder's keys, the stored
      route target dict it subtracts from and the given one it subtracts. */
  predicate IpvpnUnplugReady(d: Details, given: Details) {
    IPVPN_BGPVPN in d ==> IpvpnReady(d, given) && IsRouteTargetDict(d[IPVPN_BGPVPN]) && GivenOk(given)
  }

  /** What the E-VPN half of the unplug reads, likewise. */
  predicate EvpnUnplugReady(d: Details, given: Details) {
    EVPN_BGPVPN in d ==> EvpnReady(d, given) && IsRouteTargetDict(d[EVPN_BGPVPN]) && GivenOk(given)
  }

  /** What `_do_local_port_bgpvpn_unplug` reads; an attachment with no BGP
      VPN key is left alone whatever it and the given dicts hold. */
  predicate UnplugReady(d: Details, ipvpnGiven: Details, evpnGiven: Details) {
    IpvpnUnplugReady(d, ipvpnGiven) && EvpnUnplugReady(d, evpnGiven)
  }

  /** The attachment after the IP-VPN half of `_do_local_port_bgpvpn_unplug`;
      `ok` is the detach post's success. */
  function UnplugIpvpnDetails(d: Details, given: Details, status: Status, ok: bool): (r: Details)
    requires IpvpnUnplugReady(d, given)
    ensures Ready(d) ==> Ready(r)
    ensures IPVPN_BGPVPN in r ==> IPVPN_BGPVPN in d && IsRouteTargetDict(r[IPVPN_BGPVPN])
    ensures forall k :: k != IPVPN_BGPVPN ==> (k in r <==> k in d) && (k in r ==> r[k] == d[k])
  {
    if IPVPN_BGPVPN !in d || (status == Up && !ok) then d
    else
      var removed := if given != map[] then given else d[IPVPN_BGPVPN].fields;
      ReducedVpnReady(d, IPVPN_BGPVPN, removed);
      ReducedVpn(d, IPVPN_BGPVPN, removed)
  }

  /** The attachment after the E-VPN half. */
  function UnplugEvpnDetails(d: Details, given: Details, status: Status, ok: bool): (r: Details)
    requires EvpnUnplugReady(d, given)
    ensures Ready(d) ==> Ready(r)
    ensures EVPN_BGPVPN in r ==> EVPN_BGPVPN in d && IsRouteTargetDict(r[EVPN_BGPVPN])
    ensures forall k :: k != EVPN_BGPVPN ==> (k in r <==> k in d) && (k in r ==> r[k] == d[k])
  {
    if EVPN_BGPVPN !in d || (status == Up && !ok) then d
    else
      var removed := if given != map[] then given else d[EVPN_BGPVPN].fields;
      ReducedVpnReady(d, EVPN_BGPVPN, removed);
      ReducedVpn(d, EVPN_BGPVPN, removed)
  }

  /** The attachment after `_do_local_port_bgpvpn_unplug`: IP-VPN first,
      then E-VPN. */
  function BgpvpnUnplugDetails(d: Details, ipvpnGiven: Details, evpnGiven: Details, status: Status,
                               ipvpnOk: bool, evpnOk: bool): (r: Details)
    requires UnplugReady(d, ipvpnGiven, evpnGiven)
    ensures Ready(d) ==> Ready(r)
    ensures forall k :: k != IPVPN_BGPVPN && k != EVPN_BGPVPN ==> (k in r <==> k in d) && (k in r ==> r[k] == d[k])
  {
    UnplugEvpnDetails(UnplugIpvpnDetails(d, ipvpnGiven, status, ipvpnOk), evpnGiven, status, evpnOk)
  }

  /** The detach request of the IP-VPN half, posted only while UP. */
  function UnplugIpvpnRequests(d: Details, given: Details, status: Status): seq<Request>
    requires IpvpnUnplugReady(d, given)
  {
    if IPVPN_BGPVPN in d && status == Up then [Detach(GetLocalPortWithIpvpnDetails(d, given))] else []
  }

  /** The detach request of the E-VPN half, posted only while UP. */
  function UnplugEvpnRequests(d: Details, given: Details, status: Status): seq<Request>
    requires EvpnUnplugReady(d, given)
  {
    if EVPN_BGPVPN in d && status == Up then [Detach(GetLocalPortWithEvpnDetails(d, given))] else []
  }

  /** The detach requests `_do_local_port_bgpvpn_unplug` posts; the E-VPN
      payload is built from the attachment as the IP-VPN half left it. */
  function BgpvpnUnplugRequests(d: Details, ipvpnGiven: Details, evpnGiven: Details, status: Status,
                                ipvpnOk: bool): seq<Request>
    requires UnplugReady(d, ipvpnGiven, evpnGiven)
  {
    UnplugIpvpnRequests(d, ipvpnGiven, status)
    + UnplugEvpnRequests(UnplugIpvpnDetails(d, ipvpnGiven, status, ipvpnOk), evpnGiven, status)
  }

  /** Detach requests are posted only while the component is UP, one per
      VPN kind the attachment is on, and failed posts change nothing. */
  lemma UnplugPostsOnlyWhenUp(d: Details, ipvpnGiven: Details, evpnGiven: Details, status: Status,
                              ipvpnOk: bool, evpnOk: bool)
    requires UnplugReady(d, ipvpnGiven, evpnGiven)
    ensures status == Down ==> BgpvpnUnplugRequests(d, ipvpnGiven, evpnGiven, status, ipvpnOk) == []
    ensures status == Up ==>
      |BgpvpnUnplugRequests(d, ipvpnGiven, evpnGiven, status, ipvpnOk)| == (if IPVPN_BGPVPN in d then 1 else 0) + (if EVPN_BGPVPN in d then 1 else 0)
    ensures status == Up && !ipvpnOk && !evpnOk ==> BgpvpnUnplugDetails(d, ipvpnGiven, evpnGiven, status, ipvpnOk, evpnOk) == d
  {
  }

  /** Subtracting an attachment's own route targets for a VPN forgets that
      VPN. */
  lemma ReduceByOwnRouteTargets(d: Details, key: string, given: Details)
    requires key in d && d[key] == Dict(given) && IsRouteTargetDict(Dict(given))
    ensures ReducedVpn(d, key, given) == d - {key}
  {
    FilterOutCovered(given[IMPORT_RT].items, given[IMPORT_RT].items);
    FilterOutCovered(given[EXPORT_RT].items, given[EXPORT_RT].items);
  }

  /** A detach without given route targets, once posted successfully,
      forgets the BGP VPN details entirely. */
  lemma UnplugWithoutGivenForgets(d: Details)
    requires UnplugReady(d, map[], map[])
    ensures IPVPN_BGPVPN !in BgpvpnUnplugDetails(d, map[], map[], Up, true, true)
    ensures EVPN_BGPVPN !in BgpvpnUnplugDetails(d, map[], map[], Up, true, true)
  {
    var ip := UnplugIpvpnDetails(d, map[], Up, true);
    if IPVPN_BGPVPN in d {
      ReduceByOwnRouteTargets(d, IPVPN_BGPVPN, d[IPVPN_BGPVPN].fields);
    }
    if EVPN_BGPVPN in ip {
      ReduceByOwnRouteTargets(ip, EVPN_BGPVPN, ip[EVPN_BGPVPN].fields);
    }
  }

  lemma AddedThenRemoved(d: Details, k1: string, k2: string, v1: Value, v2: Value)
    requires k1 !in d && k2 !in d && k1 != k2
    ensures d[k1 := v1][k2 := v2] - {k1} - {k2} == d
  {
  }

  /** Attaching a port to BGP VPNs and detaching it with the same route
      targets gives back the attachment it had before. */
  lemma UpdateThenUnplugRestores(d: Details, ipvpnGiven: Details, evpnGiven: Details)
    requires Ready(d) && HasNetworkDetails(d) && IPVPN_BGPVPN !in d && EVPN_BGPVPN !in d
    requires IsRouteTargetDict(Dict(ipvpnGiven)) && IsRouteTargetDict(Dict(evpnGiven))
    requires EVPN in d ==> ListsOnCommonKeys(d[EVPN].fields, evpnGiven)
    ensures Ready(UpdatedBgpvpnDetails(d, ipvpnGiven, evpnGiven))
    ensures UnplugReady(UpdatedBgpvpnDetails(d, ipvpnGiven, evpnGiven), ipvpnGiven, evpnGiven)
    ensures BgpvpnUnplugDetails(UpdatedBgpvpnDetails(d, ipvpnGiven, evpnGiven), ipvpnGiven, evpnGiven, Up, true, true) == d
  {
    var u := UpdatedBgpvpnDetails(d, ipvpnGiven, evpnGiven);
    ReduceByOwnRouteTargets(u, IPVPN_BGPVPN, ipvpnGiven);
    var ip := UnplugIpvpnDetails(u, ipvpnGiven, Up, true);
    assert ip == u - {IPVPN_BGPVPN};
    ReduceByOwnRouteTargets(ip, EVPN_BGPVPN, evpnGiven);
    var ev := UnplugEvpnDetails(ip, evpnGiven, Up, true);
    assert ev == ip - {EVPN_BGPVPN};
    AddedThenRemoved(d, IPVPN_BGPVPN, EVPN_BGPVPN, Dict(ipvpnGiven), Dict(evpnGiven));
  }

  /** An attachment with no VPN key, whatever else it holds, is replayed
      and unplugged without a key being read, whatever dicts the unplug is
      given: the replay posts nothing and the unplug posts nothing and
      leaves it as it is. */
  lemma VpnLessAttachmentSkipped(d: Details, ipvpnGiven: Details, evpnGiven: Details,
                                 status: Status, ipvpnOk: bool, evpnOk: bool)
    requires !HasVpnKey(d)
    ensures Ready(d) && AttachmentReplay(d) == []
    ensures UnplugReady(d, ipvpnGiven, evpnGiven)
    ensures BgpvpnUnplugRequests(d, ipvpnGiven, evpnGiven, status, ipvpnOk) == []
    ensures BgpvpnUnplugDetails(d, ipvpnGiven, evpnGiven, status, ipvpnOk, evpnOk) == d
  {
  }

  /** Detaching while the component is DOWN posts nothing, and the route
      targets are forgotten all the same. */
  lemma UnplugWhileDownForgets(d: Details)
    requires UnplugReady(d, map[], map[])
    ensures BgpvpnUnplugRequests(d, map[], map[], Down, false) == []
    ensures BgpvpnUnplugDetails(d, map[], map[], Down, false, false) == BgpvpnUnplugDetails(d, map[], map[], Up, true, true)
  {
  }

  // ---------------------------------------------------------------------
  // The agent

  class BaGPipeBGPAgent {
    var regAttachments: Registry
    var status: Status
    var seqNum: int
    /** The attach and detach requests posted to the BGP component, in order. */
    var sent: seq<Request>

    predicate Valid()
      reads this
    {
      seqNum != -1
    }

    constructor()
      ensures Valid()
      ensures regAttachments == map[] && status == Down && seqNum == 0 && sent == []
    {
      regAttachments := map[];
      status := Down;
      seqNum := 0;
      sent := [];
    }

    /** Posts an attach request if the component is UP; a failed post is
        logged and swallowed. */
    method SendAttachLocalPort(payload: Details)
      modifies this`sent
      ensures sent == old(sent) + (if status == Up then [Attach(payload)] else [])
    {
      if status == Up {
        sent := sent + [Attach(payload)];
      }
    }

    /** Posts a detach request if the component is UP; `ok` is the post's
        success, and a failed post is raised again. */
    method SendDetachLocalPort(payload: Details, ok: bool) returns (raised: bool)
      modifies this`sent
      ensures raised <==> status == Up && !ok
      ensures sent == old(sent) + (if status == Up then [Detach(payload)] else [])
    {
      raised := false;
      if status == Up {
        sent := sent + [Detach(payload)];
        if !ok {
          raised := true;
        }
      }
    }

    method DoLocalPortBagpipePlug(d: Details)
      requires BagpipePlugReady(d)
      modifies this`sent
      ensures sent == old(sent) + (if status == Up then BagpipePlugRequests(d) else [])
    {
      if EVPN in d {
        SendAttachLocalPort(GetLocalPortWithEvpnDetails(d, map[]));
      }
    }

    method DoLocalPortBgpvpnPlug(d: Details)
      requires BgpvpnPlugReady(d)
      modifies this`sent
      ensures sent == old(sent) + (if status == Up then BgpvpnPlugRequests(d) else [])
    {
      if EVPN_BGPVPN in d {
        SendAttachLocalPort(GetLocalPortWithEvpnDetails(d, map[]));
      }
      if IPVPN_BGPVPN in d {
        SendAttachLocalPort(GetLocalPortWithIpvpnDetails(d, map[]));
      }
    }

    /** Re-sends the attach requests of a network's attachments, in order. */
    method ReplayNetwork(list: seq<Details>)
      requires forall i :: 0 <= i < |list| ==> Ready(list[i])
      requires status == Up
      modifies this`sent
      ensures sent == old(sent) + NetworkReplay(list)
    {
      var i := 0;
      while i < |list|
        invariant 0 <= i <= |list|
        invariant sent == old(sent) + NetworkReplay(list[..i])
      {
        NetworkReplayStep(list, i);
        ghost var before := sent;
        DoLocalPortBagpipePlug(list[i]);
        DoLocalPortBgpvpnPlug(list[i]);
        AppendAssoc(before, BagpipePlugRequests(list[i]), BgpvpnPlugRequests(list[i]));
        AppendAssoc(old(sent), NetworkReplay(list[..i]), AttachmentReplay(list[i]));
        i := i + 1;
      }
      assert list[..i] == list;
    }

    /** One status poll with the ping answer `ping`; on a restart every
        registered attachment is replayed, networks visited in `order`. */
    method CheckBagpipeBgpStatus(ping: int, order: seq<string>)
      requires Valid()
      requires ping != -1 && ping != seqNum ==> EnumeratesKeys(order, regAttachments) && RegistryReady(regAttachments)
      modifies this`seqNum, this`status, this`sent
      ensures Valid()
      ensures ping == -1 ==> status == Down && seqNum == old(seqNum) && sent == old(sent)
      ensures var step := StatusStep(StatusState(old(seqNum), old(status)), ping);
        && StatusState(seqNum, status) == step.0
        && sent == old(sent) + (if step.1 then ReplayRequests(regAttachments, order) else [])
    {
      var newSeqNum := ping;
      if newSeqNum != seqNum {
        if newSeqNum != -1 {
          seqNum := newSeqNum;
          status := Up;
          var k := 0;
          while k < |order|
            invariant 0 <= k <= |order|
            invariant status == Up && seqNum == newSeqNum
            invariant sent == old(sent) + ReplayRequests(regAttachments, order[..k])
          {
            ReplayRequestsStep(regAttachments, order, k);
            ReplayNetwork(regAttachments[order[k]]);
            AppendAssoc(old(sent), ReplayRequests(regAttachments, order[..k]), NetworkReplay(regAttachments[order[k]]));
            k := k + 1;
          }
          assert order[..k] == order;
        } else {
          status := Down;
        }
      }
    }

    /** Finds a port's attachment on a network; looking up an unknown
        network registers it with an empty list. */
    method GetRegAttachmentForPort(networkId: string, localPortId: string) returns (r: Result<(nat, Details), AgentError>)
      requires Valid()
      modifies this`regAttachments
      ensures Valid()
      ensures regAttachments == if networkId in old(regAttachments) then old(regAttachments) else old(regAttachments)[networkId := []]
      ensures var found := FindAttachment(Lookup(old(regAttachments), networkId), localPortId);
        && (r.Failure? <==> found.None?)
        && (r.Failure? ==> r.error == AttachmentNotFound(localPortId))
        && (r.Success? ==> r.value.0 == found.value && r.value.1 == Lookup(old(regAttachments), networkId)[found.value])
    {
      if networkId !in regAttachments {
        regAttachments := regAttachments[networkId := []];
      }
      var list := regAttachments[networkId];
      var i := 0;
      while i < |list|
        invariant 0 <= i <= |list|
        invariant forall j :: 0 <= j < i ==> !IsPort(list[j], localPortId)
      {
        if IsPort(list[i], localPortId) {
          return Success((i, list[i]));
        }
        i := i + 1;
      }
      return Failure(AttachmentNotFound(localPortId));
    }

    /** Drops an attachment that has no VPN details left, and its network
        when that empties it. */
    method RemoveRegAttachmentForIndex(networkId: string, index: nat)
      requires Valid()
      requires networkId in regAttachments && index < |regAttachments[networkId]|
      modifies this`regAttachments
      ensures Valid()
      ensures regAttachments == RemovedAt(old(regAttachments), networkId, index)
    {
      var list := regAttachments[networkId];
      if !HasVpnKey(list[index]) {
        list := list[..index] + list[index + 1..];
        regAttachments := regAttachments[networkId := list];
        if list == [] {
          regAttachments := regAttachments - {networkId};
        }
      }
    }

    /** Registers a port's VPN details: an existing attachment is updated in
        place, a new one is appended. `localPort` and `linuxbr` are what the
        bridge manager names for the port. */
    method AddLocalPortDetails(networkId: string, portId: string, portInfo: Details,
                               localPort: Option<Value>, linuxbr: Option<Value>) returns (details: Details)
      requires Valid()
      modifies this`regAttachments
      ensures Valid()
      ensures var added := AddedAttachments(Lookup(old(regAttachments), networkId), networkId, portId, portInfo, localPort, linuxbr);
        regAttachments == old(regAttachments)[networkId := added.0] && details == added.1
    {
      ghost var list := Lookup(regAttachments, networkId);
      ghost var added := AddedAttachments(list, networkId, portId, portInfo, localPort, linuxbr);
      ghost var before := regAttachments;
      var found := GetRegAttachmentForPort(networkId, portId);
      assert regAttachments[networkId] == list;
      UpdateOverrides(before, networkId, list, added.0);
      if found.Success? {
        var index := found.value.0;
        details := found.value.1;
        if EVPN in portInfo {
          details := details[EVPN := portInfo[EVPN]];
        }
        if L3VPN in portInfo {
          details := details[IPVPN_BGPVPN := portInfo[L3VPN]];
        }
        if L2VPN in portInfo {
          details := details[EVPN_BGPVPN := portInfo[L2VPN]];
        }
        assert details == added.1 && list[index := details] == added.0;
        regAttachments := regAttachments[networkId := regAttachments[networkId][index := details]];
      } else {
        details := PortDetailsForAttach(portId, networkId, localPort, linuxbr);
        var info := portInfo;
        if L3VPN in info {
          info := (info - {L3VPN})[IPVPN_BGPVPN := info[L3VPN]];
        }
        if L2VPN in info {
          info := (info - {L2VPN})[EVPN_BGPVPN := info[L2VPN]];
        }
        details := details + info;
        assert info == AttachInfo(portInfo);
        assert details == added.1 && list + [details] == added.0;
        regAttachments := regAttachments[networkId := regAttachments[networkId] + [details]];
      }
    }

    /** Records the BGP VPN route targets given (an empty dict is None). */
    method UpdateLocalPortBgpvpnDetails(networkId: string, index: nat, ipvpnGiven: Details, evpnGiven: Details)
      returns (attachment: Details)
      requires Valid()
      requires networkId in regAttachments && index < |regAttachments[networkId]|
      modifies this`regAttachments
      ensures Valid()
      ensures attachment == UpdatedBgpvpnDetails(old(regAttachments)[networkId][index], ipvpnGiven, evpnGiven)
      ensures regAttachments == old(regAttachments)[networkId := old(regAttachments)[networkId][index := attachment]]
    {
      attachment := regAttachments[networkId][index];
      if ipvpnGiven != map[] {
        attachment := attachment[IPVPN_BGPVPN := Dict(ipvpnGiven)];
      }
      if evpnGiven != map[] {
        attachment := attachment[EVPN_BGPVPN := Dict(evpnGiven)];
      }
      regAttachments := regAttachments[networkId := regAttachments[networkId][index := attachment]];
    }

    /** The IP-VPN half of the unplug: the detach post, and on success the
        subtraction of the detached route targets. */
    method DetachIpvpn(d: Details, given: Details, ok: bool) returns (r: Details)
      requires IpvpnUnplugReady(d, given)
      modifies this`sent
      ensures r == UnplugIpvpnDetails(d, given, status, ok)
      ensures sent == old(sent) + UnplugIpvpnRequests(d, given, status)
    {
      r := d;
      if IPVPN_BGPVPN in d {
        var removed := given;
        var payload := GetLocalPortWithIpvpnDetails(d, given);
        if given == map[] {
          removed := d[IPVPN_BGPVPN].fields;
        }
        var raised := SendDetachLocalPort(payload, ok);
        if !raised {
          r := ReducedVpn(d, IPVPN_BGPVPN, removed);
        }
      }
    }

    /** The E-VPN half of the unplug. */
    method DetachEvpn(d: Details, given: Details, ok: bool) returns (r: Details)
      requires EvpnUnplugReady(d, given)
      modifies this`sent
      ensures r == UnplugEvpnDetails(d, given, status, ok)
      ensures sent == old(sent) + UnplugEvpnRequests(d, given, status)
    {
      r := d;
      if EVPN_BGPVPN in d {
        var removed := given;
        var payload := GetLocalPortWithEvpnDetails(d, given);
        if given == map[] {
          removed := d[EVPN_BGPVPN].fields;
        }
        var raised := SendDetachLocalPort(payload, ok);
        if !raised {
          r := ReducedVpn(d, EVPN_BGPVPN, removed);
        }
      }
    }

    /** Detaches a port from its BGP VPNs, IP-VPN first, and subtracts the
        detached route targets from its attachment; a failed detach post
        (`ipvpnOk`, `evpnOk`) leaves that half of the attachment as it was. */
    method DoLocalPortBgpvpnUnplug(networkId: string, index: nat, ipvpnGiven: Details, evpnGiven: Details,
                                   ipvpnOk: bool, evpnOk: bool)
      requires Valid()
      requires networkId in regAttachments && index < |regAttachments[networkId]|
      requires UnplugReady(regAttachments[networkId][index], ipvpnGiven, evpnGiven)
      modifies this`regAttachments, this`sent
      ensures Valid()
      ensures var d := old(regAttachments)[networkId][index];
        && regAttachments == old(regAttachments)[networkId := old(regAttachments)[networkId][index :=
             BgpvpnUnplugDetails(d, ipvpnGiven, evpnGiven, old(status), ipvpnOk, evpnOk)]]
        && sent == old(sent) + BgpvpnUnplugRequests(d, ipvpnGiven, evpnGiven, old(status), ipvpnOk)
    {
      var d := regAttachments[networkId][index];
      ghost var d0 := d;
      d := DetachIpvpn(d, ipvpnGiven, ipvpnOk);
      ghost var d1 := d;
      d := DetachEvpn(d, evpnGiven, evpnOk);
      AppendAssoc(old(sent), UnplugIpvpnRequests(d0, ipvpnGiven, status), UnplugEvpnRequests(d1, evpnGiven, status));
      regAttachments := regAttachments[networkId := regAttachments[networkId][index := d]];
    }
  }
}
