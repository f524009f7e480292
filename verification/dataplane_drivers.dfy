/** The dataplane driver: one object per encapsulation technology, built
    once from a configuration, that validates the optional dataplane-facing
    local address, warns about an old kernel, resets leftover forwarding
    state once (on the first instance it creates) and hands out
    per-instance dataplane handles. The no-op "dummy" driver and instance
    dataplane are the concrete variants. */
module DataplaneDrivers {
  import opened Wrappers
  import opened Inet
  import opened VpnNlri

  /** Tunnel types of the BGP Encapsulation extended community. */
  datatype EncapType = Default | L2tpv3 | Gre | IpInIp | Vxlan | Nvgre | Mpls

  /** The encapsulations a driver class supports unless it says otherwise. */
  const DEFAULT_ENCAPS: seq<EncapType> := [Default]

  const LOCAL_ADDRESS_KEY := "dataplane_local_address"

  type Config = map<string, string>

  datatype DriverError = MalformedLocalAddress(address: string)

  /** A kernel release as `StrictVersion` reads it: major.minor.patch. */
  datatype KernelVersion = KernelVersion(major: nat, minor: nat, patch: nat)

  predicate OlderThan(a: KernelVersion, b: KernelVersion) {
    a.major < b.major
    || (a.major == b.major && a.minor < b.minor)
    || (a.major == b.major && a.minor == b.minor && a.patch < b.patch)
  }

  /** The local address a configuration selects: none when the key is
      absent (the BGP address is used instead), the configured text when
      `inet_pton` accepts it, and a configuration error otherwise. */
  function LocalAddressFromConfig(config: Config): (r: Result<Option<string>, DriverError>)
    ensures r.Success? <==> (LOCAL_ADDRESS_KEY in config ==> IsIPv4Literal(config[LOCAL_ADDRESS_KEY]))
    ensures r.Success? && r.value.Some? ==>
      LOCAL_ADDRESS_KEY in config && r.value.value == config[LOCAL_ADDRESS_KEY]
    ensures r.Success? && r.value.None? <==> LOCAL_ADDRESS_KEY !in config
  {
    if LOCAL_ADDRESS_KEY !in config then Success(None)
    else if IsIPv4Literal(config[LOCAL_ADDRESS_KEY]) then Success(Some(config[LOCAL_ADDRESS_KEY]))
    else Failure(MalformedLocalAddress(config[LOCAL_ADDRESS_KEY]))
  }

  /** Any address written in dotted-quad form is accepted and kept verbatim,
      and whatever is accepted is the spelling of a unique address. */
  lemma LocalAddressAccepted(config: Config, a: IPv4Address)
    requires LOCAL_ADDRESS_KEY in config && config[LOCAL_ADDRESS_KEY] == FormatIPv4(a)
    ensures LocalAddressFromConfig(config) == Success(Some(FormatIPv4(a)))
    ensures ParseIPv4(LocalAddressFromConfig(config).value.value) == Some(a)
  {
    ParseFormatIPv4(a);
  }

  /** The per-instance handle the driver's factory returns: the driver it
      belongs to, the driver's configuration and the arguments it was
      created with. */
  datatype InstanceDataplane = InstanceDataplane(
    driver: DataplaneDriver,
    config: Config,
    instanceId: int,
    externalInstanceId: string,
    gatewayIP: string,
    mask: int,
    instanceLabel: Option<int>)

  class DataplaneDriver {
    const config: Config
    /** The driver class's `encaps` attribute. */
    const encaps: seq<EncapType>
    /** The driver class's `requiredKernel` attribute, when it has one. */
    const requiredKernel: Option<KernelVersion>
    const localAddress: Option<string>
    /** True until the first instance is created. */
    var firstInit: bool
    /** Whether the kernel-version warning was logged at construction. */
    const kernelWarning: bool

    ghost var initRealCalls: nat
    ghost var resetStateCalls: nat
    ghost var cleanupRealCalls: nat
    ghost var instancesCreated: nat

    /** `resetState` has run exactly once if some instance was created, and
        never otherwise; `firstInit` says whether none was created yet. */
    ghost predicate Valid()
      reads this
    {
      && (firstInit <==> instancesCreated == 0)
      && resetStateCalls == (if instancesCreated == 0 then 0 else 1)
    }

    /** The part of construction that follows a successful address check. */
    constructor (config: Config, encaps: seq<EncapType>, requiredKernel: Option<KernelVersion>,
                 runningKernel: KernelVersion, localAddress: Option<string>, init: bool)
      ensures Valid()
      ensures this.config == config && this.encaps == encaps && this.requiredKernel == requiredKernel
      ensures this.localAddress == localAddress
      ensures firstInit && instancesCreated == 0 && resetStateCalls == 0 && cleanupRealCalls == 0
      ensures initRealCalls == (if init then 1 else 0)
      ensures kernelWarning <==> requiredKernel.Some? && OlderThan(runningKernel, requiredKernel.value)
    {
      this.config := config;
      this.encaps := encaps;
      this.requiredKernel := requiredKernel;
      this.localAddress := localAddress;
      kernelWarning := requiredKernel.Some? && OlderThan(runningKernel, requiredKernel.value);
      initRealCalls := if init then 1 else 0;
      firstInit := true;
      resetStateCalls, cleanupRealCalls, instancesCreated := 0, 0, 0;
    }

    function GetLocalAddress(): Option<string> {
      localAddress
    }

    function SupportedEncaps(): seq<EncapType> {
      encaps
    }

    /** Creates the handle of a new VPN instance. On the first call only, it
        first resets the dataplane state; an exception the reset raises is
        logged and absorbed, so the outcome does not depend on it and the
        model records only that the reset ran. Extra keyword arguments are dropped
        by the instance class and are not modelled. */
    method InitializeDataplaneInstance(instanceId: int, externalInstanceId: string, gatewayIP: string,
                                       mask: int, instanceLabel: Option<int>)
      returns (h: InstanceDataplane)
      requires Valid()
      modifies this`firstInit, this`resetStateCalls, this`instancesCreated
      ensures Valid()
      ensures !firstInit
      ensures resetStateCalls == old(resetStateCalls) + (if old(firstInit) then 1 else 0)
      ensures instancesCreated == old(instancesCreated) + 1
      ensures h == InstanceDataplane(this, config, instanceId, externalInstanceId, gatewayIP, mask, instanceLabel)
    {
      if firstInit {
        resetStateCalls := resetStateCalls + 1;
        firstInit := false;
      }
      instancesCreated := instancesCreated + 1;
      h := InstanceDataplane(this, config, instanceId, externalInstanceId, gatewayIP, mask, instanceLabel);
    }

    /** Releases driver resources; neither resets state nor touches `firstInit`. */
    method Cleanup()
      requires Valid()
      modifies this`cleanupRealCalls
      ensures Valid()
      ensures cleanupRealCalls == old(cleanupRealCalls) + 1
    {
      cleanupRealCalls := cleanupRealCalls + 1;
    }
  }

  /** Driver construction: the local address is validated first (a malformed
      one aborts construction), then the kernel version is compared with the
      class's requirement (an old kernel only logs a warning), then the
      driver-specific initialisation runs unless `init` is false. */
  method NewDataplaneDriver(config: Config, encaps: seq<EncapType>, requiredKernel: Option<KernelVersion>,
                            runningKernel: KernelVersion, init: bool)
    returns (r: Result<DataplaneDriver, DriverError>)
    ensures r.Failure? <==> LocalAddressFromConfig(config).Failure?
    ensures r.Failure? ==> r == Failure(LocalAddressFromConfig(config).error)
    ensures r.Success? ==>
      && fresh(r.value) && r.value.Valid()
      && r.value.firstInit && r.value.resetStateCalls == 0
      && r.value.initRealCalls == (if init then 1 else 0)
      && r.value.GetLocalAddress() == LocalAddressFromConfig(config).value
      && r.value.config == config && r.value.SupportedEncaps() == encaps
      && (r.value.kernelWarning <==> requiredKernel.Some? && OlderThan(runningKernel, requiredKernel.value))
  {
    var address := LocalAddressFromConfig(config);
    if address.Failure? {
      return Failure(address.error);
    }
    var d := new DataplaneDriver(config, encaps, requiredKernel, runningKernel, address.value, init);
    r := Success(d);
  }

  /** The no-op driver: default encapsulation only, no kernel requirement. */
  method NewDummyDataplaneDriver(config: Config, init: bool, runningKernel: KernelVersion)
    returns (r: Result<DataplaneDriver, DriverError>)
    ensures r.Failure? <==> LocalAddressFromConfig(config).Failure?
    ensures r.Success? ==>
      && fresh(r.value) && r.value.Valid() && r.value.firstInit
      && r.value.SupportedEncaps() == DEFAULT_ENCAPS
      && !r.value.kernelWarning
      && r.value.GetLocalAddress() == LocalAddressFromConfig(config).value
  {
    r := NewDataplaneDriver(config, DEFAULT_ENCAPS, None, runningKernel, init);
  }

  /** A sequence of `count` instance creations on a fresh driver resets the
      dataplane state once if `count` is positive and never otherwise. */
  method InitializeInstances(d: DataplaneDriver, count: nat)
    requires d.Valid() && d.firstInit
    modifies d`firstInit, d`resetStateCalls, d`instancesCreated
    ensures d.Valid()
    ensures d.resetStateCalls == (if count == 0 then 0 else 1)
    ensures d.firstInit <==> count == 0
  {
    var i := 0;
    while i < count
      invariant 0 <= i <= count
      invariant d.Valid()
      invariant d.instancesCreated == old(d.instancesCreated) + i
    {
      var _ := d.InitializeDataplaneInstance(i, "", "", 0, None);
      i := i + 1;
    }
  }

  /** One operation the VPN instance asks of its dataplane. */
  datatype DataplaneCall =
    | VifPlugged(macAddress: string, ipAddressPrefix: string, localPort: string, mplsLabel: nat)
    | VifUnplugged(macAddress: string, ipAddressPrefix: string, localPort: string, mplsLabel: nat, lastEndpoint: bool)
    | SetupRemote(prefix: Prefix, remotePE: IPv4Address, mplsLabel: nat, nlri: Nlri, encaps: set<EncapType>)
    | RemoveRemote(prefix: Prefix, remotePE: IPv4Address, mplsLabel: nat, nlri: Nlri, encaps: set<EncapType>)
    | CleanupInstance

  /** The no-op instance dataplane. Its operations do nothing but be called;
      `calls` records them in order, as a test double would. */
  class DummyVpnInstanceDataplane {
    const handle: InstanceDataplane
    ghost var calls: seq<DataplaneCall>

    constructor (handle: InstanceDataplane)
      ensures this.handle == handle && calls == []
    {
      this.handle := handle;
      calls := [];
    }

    method VifPluggedCall(macAddress: string, ipAddressPrefix: string, localPort: string, mplsLabel: nat)
      modifies this`calls
      ensures calls == old(calls) + [VifPlugged(macAddress, ipAddressPrefix, localPort, mplsLabel)]
    {
      calls := calls + [VifPlugged(macAddress, ipAddressPrefix, localPort, mplsLabel)];
    }

    method VifUnpluggedCall(macAddress: string, ipAddressPrefix: string, localPort: string, mplsLabel: nat, lastEndpoint: bool)
      modifies this`calls
      ensures calls == old(calls) + [VifUnplugged(macAddress, ipAddressPrefix, localPort, mplsLabel, lastEndpoint)]
    {
      calls := calls + [VifUnplugged(macAddress, ipAddressPrefix, localPort, mplsLabel, lastEndpoint)];
    }

    method SetupDataplaneForRemoteEndpoint(prefix: Prefix, remotePE: IPv4Address, mplsLabel: nat, nlri: Nlri, encaps: set<EncapType>)
      modifies this`calls
      ensures calls == old(calls) + [SetupRemote(prefix, remotePE, mplsLabel, nlri, encaps)]
    {
      calls := calls + [SetupRemote(prefix, remotePE, mplsLabel, nlri, encaps)];
    }

    /** `encaps` is a required argument, as in the base class. */
    method RemoveDataplaneForRemoteEndpoint(prefix: Prefix, remotePE: IPv4Address, mplsLabel: nat, nlri: Nlri, encaps: set<EncapType>)
      modifies this`calls
      ensures calls == old(calls) + [RemoveRemote(prefix, remotePE, mplsLabel, nlri, encaps)]
    {
      calls := calls + [RemoveRemote(prefix, remotePE, mplsLabel, nlri, encaps)];
    }

    method Cleanup()
      modifies this`calls
      ensures calls == old(calls) + [CleanupInstance]
    {
      calls := calls + [CleanupInstance];
    }
  }
}
