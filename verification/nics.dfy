/** Network identity of a classic VM: at most one NIC, identified by a subnet
    reference and an IP address, resolved from the static virtual-network
    configuration first and completed from the live instance view
    (classic_instance.go, lines 204-232 and 373-384). */
module ClassicNics {
  import opened Wrappers
  import opened ClassicTypes

  /** A NIC as reported upward: its subnet reference and its address. */
  datatype Nic = Nic(id: string, ip: string)

  /** The live private IP, when an instance view exists and reports one. */
  predicate HasLivePrivateIp(view: Option<InstanceView>)
  {
    view.Some? && view.value.privateIpAddress != ""
  }

  /** Resolution as the source writes it: both fields from static
      configuration, then one joint fallback step that fills whichever
      fields are still empty from the live private IP, then the NIC exists
      only if both fields ended up non-empty. `selfId` is the ID of the
      record the caller holds, which names the synthetic subnet reference. */
  function ResolveNic(selfId: string, profile: NetworkProfile, view: Option<InstanceView>): (nic: Option<Nic>)
    ensures nic.Some? ==> nic.value.id != "" && nic.value.ip != ""
    ensures nic.Some? && |profile.virtualNetwork.subnetNames| > 0 ==>
      nic.value.id == profile.virtualNetwork.id + "/" + profile.virtualNetwork.subnetNames[0]
    ensures nic.Some? && profile.virtualNetwork.staticIpAddress != "" ==>
      nic.value.ip == profile.virtualNetwork.staticIpAddress
    ensures nic.Some? && |profile.virtualNetwork.subnetNames| == 0 ==>
      HasLivePrivateIp(view) && nic.value.id == selfId + "/" + view.value.privateIpAddress
    ensures nic.Some? && profile.virtualNetwork.staticIpAddress == "" ==>
      HasLivePrivateIp(view) && nic.value.ip == view.value.privateIpAddress
    ensures nic.None? <==>
      (|profile.virtualNetwork.subnetNames| == 0 || profile.virtualNetwork.staticIpAddress == "")
      && !HasLivePrivateIp(view)
  {
    var vnet := profile.virtualNetwork;
    var id := if |vnet.subnetNames| > 0 then vnet.id + "/" + vnet.subnetNames[0] else "";
    var ip := if |vnet.staticIpAddress| > 0 then vnet.staticIpAddress else "";
    var (id', ip') :=
      if (id == "" || ip == "") && HasLivePrivateIp(view) then
        (if id == "" then selfId + "/" + view.value.privateIpAddress else id,
         if ip == "" then view.value.privateIpAddress else ip)
      else (id, ip);
    if id' != "" && ip' != "" then Some(Nic(id', ip')) else None
  }

  /** Reference definition of the subnet reference, field by field: static
      subnet first, else the synthetic `<instance>/<private ip>`, else none. */
  function ReferenceId(selfId: string, profile: NetworkProfile, view: Option<InstanceView>): string
  {
    if |profile.virtualNetwork.subnetNames| > 0 then
      profile.virtualNetwork.id + "/" + profile.virtualNetwork.subnetNames[0]
    else if HasLivePrivateIp(view) then selfId + "/" + view.value.privateIpAddress
    else ""
  }

  /** Reference definition of the address, field by field: static IP first,
      else the live private IP, else none. */
  function ReferenceIp(profile: NetworkProfile, view: Option<InstanceView>): string
  {
    if profile.virtualNetwork.staticIpAddress != "" then profile.virtualNetwork.staticIpAddress
    else if HasLivePrivateIp(view) then view.value.privateIpAddress
    else ""
  }

  /** The source's joint fallback step resolves each field independently:
      its result is the pair of per-field resolutions, present exactly when
      both are non-empty. */
  lemma ResolveNicIsFieldwise(selfId: string, profile: NetworkProfile, view: Option<InstanceView>)
    ensures
      var id := ReferenceId(selfId, profile, view);
      var ip := ReferenceIp(profile, view);
      ResolveNic(selfId, profile, view) == if id != "" && ip != "" then Some(Nic(id, ip)) else None
  {
  }

  /** A complete static configuration is returned verbatim; the live view,
      whatever it reports, is ignored. */
  lemma StaticConfigurationWins(selfId: string, profile: NetworkProfile, v1: Option<InstanceView>, v2: Option<InstanceView>)
    requires |profile.virtualNetwork.subnetNames| > 0 && profile.virtualNetwork.staticIpAddress != ""
    ensures ResolveNic(selfId, profile, v1) == ResolveNic(selfId, profile, v2)
    ensures ResolveNic(selfId, profile, v1) ==
      Some(Nic(profile.virtualNetwork.id + "/" + profile.virtualNetwork.subnetNames[0],
               profile.virtualNetwork.staticIpAddress))
  {
  }

  /** Adding live data never changes a field the static configuration set,
      and never removes a NIC that static configuration alone produced. */
  lemma LiveDataOnlyCompletes(selfId: string, profile: NetworkProfile, view: Option<InstanceView>)
    ensures ResolveNic(selfId, profile, None).Some? ==>
      ResolveNic(selfId, profile, view) == ResolveNic(selfId, profile, None)
    ensures ResolveNic(selfId, profile, view).Some? && |profile.virtualNetwork.subnetNames| > 0 ==>
      ResolveNic(selfId, profile, view).value.id == ReferenceId(selfId, profile, None)
    ensures ResolveNic(selfId, profile, view).Some? && profile.virtualNetwork.staticIpAddress != "" ==>
      ResolveNic(selfId, profile, view).value.ip == ReferenceIp(profile, None)
  {
  }

  /** The NIC list: `fetched` is the remote point fetch of the record by
      `selfId`; its error is passed on unchanged, otherwise the list holds
      the resolved NIC or nothing (no NIC is not an error). */
  function GetNics(selfId: string, fetched: Result<Instance, RemoteError>): (r: Result<seq<Nic>, RemoteError>)
    ensures fetched.Failure? ==> r == Failure(fetched.error)
    ensures fetched.Success? ==> r.Success? && |r.value| <= 1
    ensures fetched.Success? ==>
      var p := fetched.value.properties;
      (|r.value| == 1 <==> ResolveNic(selfId, p.networkProfile, p.instanceView).Some?)
      && (|r.value| == 1 ==> r.value[0] == ResolveNic(selfId, p.networkProfile, p.instanceView).value)
  {
    match fetched
    case Failure(e) => Failure(e)
    case Success(inst) =>
      match ResolveNic(selfId, inst.properties.networkProfile, inst.properties.instanceView)
      case Some(nic) => Success([nic])
      case None => Success([])
  }
}
