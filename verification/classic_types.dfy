/** The records an Azure classic virtual machine is decoded into
    (classic_instance.go, lines 50-150). Go nil pointers become `Option`,
    Go slices become `seq`, Go strings become `string`. The adapter tests
    strings for emptiness and equality and joins them with `/`-separated
    formats. Every string it handles comes from decoded JSON or from
    another such string, so it is valid UTF-8; on valid UTF-8, emptiness,
    equality and concatenation give the same answers on bytes as on
    characters, so a Go string can stand as its character sequence. */
module ClassicTypes {
  import opened Wrappers

  /** An error returned by the REST transport. Its content is never
      inspected by the adapter, only passed on. */
  datatype RemoteError = RemoteError(message: string)

  /** The live, on-demand part of a classic VM: its role status and the
      addresses Azure currently reports for it. */
  datatype InstanceView = InstanceView(
    status: string,
    powerState: string,
    publicIpAddresses: seq<string>,
    fullyQualifiedDomainName: string,
    updateDomain: int,
    faultDomain: int,
    statusMessage: string,
    privateIpAddress: string,
    instanceIpAddresses: seq<string>,
    computerName: string)

  /** A reference to another Azure resource. */
  datatype SubResource = SubResource(id: string, name: string, kind: string)

  datatype ClassicDisk = ClassicDisk(
    lun: int,
    diskName: string,
    caching: string,
    operatingSystem: string,
    ioType: string,
    createdTime: string,
    sourceImageName: string,
    vhdUri: string,
    diskSize: int,
    storageAccount: SubResource)

  /** `dataDisks` is a nullable pointer to a slice in the source, hence the
      `Option` around the sequence. */
  datatype StorageProfile = StorageProfile(
    operatingSystemDisk: ClassicDisk,
    dataDisks: Option<seq<ClassicDisk>>)

  datatype HardwareProfile = HardwareProfile(
    platformGuestAgent: bool,
    size: string,
    deploymentName: string,
    deploymentId: string,
    deploymentLabel: string,
    deploymentLocked: bool)

  datatype InputEndpoint = InputEndpoint(
    endpointName: string,
    privatePort: int,
    publicPort: int,
    protocol: string,
    enableDirectServerReturn: bool)

  datatype InstanceIp = InstanceIp(
    idleTimeoutInMinutes: int,
    id: string,
    name: string,
    kind: string)

  /** The static virtual-network configuration of a classic VM. */
  datatype VirtualNetwork = VirtualNetwork(
    staticIpAddress: string,
    subnetNames: seq<string>,
    id: string,
    name: string,
    kind: string)

  datatype NetworkProfile = NetworkProfile(
    inputEndpoints: Option<seq<InputEndpoint>>,
    instanceIps: Option<seq<InstanceIp>>,
    reservedIps: Option<seq<SubResource>>,
    virtualNetwork: VirtualNetwork,
    networkSecurityGroup: Option<SubResource>)

  /** `instanceView` is absent until Azure has been asked to expand it. */
  datatype Properties = Properties(
    domainName: Option<SubResource>,
    instanceView: Option<InstanceView>,
    networkProfile: NetworkProfile,
    hardwareProfile: HardwareProfile,
    storageProfile: StorageProfile)

  /** One classic VM as last fetched. The links to the parent host, zone and
      region are transport plumbing and are not part of the record. */
  datatype Instance = Instance(
    id: string,
    name: string,
    kind: string,
    location: string,
    properties: Properties)
  {
    /** The reserved-IP references; an absent list and an empty list are
        treated alike by every reader. */
    function ReservedIps(): (ips: seq<SubResource>)
      ensures properties.networkProfile.reservedIps.Some? ==> ips == properties.networkProfile.reservedIps.value
      ensures properties.networkProfile.reservedIps.None? ==> ips == []
    {
      properties.networkProfile.reservedIps.GetOr([])
    }
  }

  /** The parts of a classic reserved (elastic) IP the adapter reads or sets.
      `instanceId` is filled in locally with the VM that asked for it. */
  datatype Eip = Eip(
    id: string,
    name: string,
    ipAddress: string,
    attachedTo: Option<SubResource>,
    instanceId: string)

  /** A record with the given ID and every other field empty. */
  function EmptyInstance(id: string): (inst: Instance)
    ensures inst.id == id && inst.properties.instanceView.None?
  {
    var disk := ClassicDisk(0, "", "", "", "", "", "", "", 0, SubResource("", "", ""));
    Instance(id, "", "", "",
      Properties(None, None,
        NetworkProfile(None, None, None, VirtualNetwork("", [], "", "", ""), None),
        HardwareProfile(false, "", "", "", "", false),
        StorageProfile(disk, None)))
  }
}
