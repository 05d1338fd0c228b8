/** The public (elastic) address of a classic VM: the first reserved IP
    whose details can be fetched decides, and only when none can be fetched
    does the first live public IP stand in (classic_instance.go,
    lines 442-470). */
module ClassicEip {
  import opened Wrappers
  import opened ClassicTypes

  /** The index of the first fetch that succeeded, if any. */
  function FirstSuccess(fetches: seq<Result<Eip, RemoteError>>): (k: Option<nat>)
    ensures k.Some? ==>
      k.value < |fetches| && fetches[k.value].Success?
      && forall j :: 0 <= j < k.value ==> fetches[j].Failure?
    ensures k.None? ==> forall i :: 0 <= i < |fetches| ==> fetches[i].Failure?
  {
    if |fetches| == 0 then None
    else if fetches[0].Success? then Some(0)
    else
      match FirstSuccess(fetches[1..])
      case None => None
      case Some(k) => Some(k + 1)
  }

  /** True when the reservation is bound to some VM other than `selfId`. */
  predicate AttachedElsewhere(selfId: string, eip: Eip)
  {
    eip.attachedTo.Some? && eip.attachedTo.value.id != selfId
  }

  /** What a successfully fetched reservation yields: the reservation, tagged
      with the asking VM, unless another VM holds it, in which case no
      address at all. */
  function Decide(selfId: string, eip: Eip): (r: Option<Eip>)
    ensures r.None? <==> AttachedElsewhere(selfId, eip)
    ensures r.Some? ==> r.value == eip.(instanceId := selfId)
  {
    var tagged := eip.(instanceId := selfId);
    if AttachedElsewhere(selfId, tagged) then None else Some(tagged)
  }

  /** The synthetic address built from the first live public IP: its ID is
      the VM's ID, its name and address are the public IP. */
  function FromLivePublicIp(selfId: string, view: Option<InstanceView>): (r: Option<Eip>)
    ensures r.Some? <==> view.Some? && |view.value.publicIpAddresses| > 0
    ensures r.Some? ==>
      r.value == Eip(selfId, view.value.publicIpAddresses[0], view.value.publicIpAddresses[0], None, selfId)
  {
    if view.Some? && |view.value.publicIpAddresses| > 0 then
      var ip := view.value.publicIpAddresses[0];
      Some(Eip(selfId, ip, ip, None, selfId))
    else None
  }

  /** Declarative statement of the resolution over the fetch results, one per
      reserved IP in order. Failed fetches are skipped; the first success
      ends the scan; the live public IP is used only when every fetch
      failed (or there was nothing to fetch). */
  function ResolveEip(selfId: string, view: Option<InstanceView>, fetches: seq<Result<Eip, RemoteError>>): (r: Option<Eip>)
    ensures (forall i :: 0 <= i < |fetches| ==> fetches[i].Failure?) ==> r == FromLivePublicIp(selfId, view)
    ensures forall k :: 0 <= k < |fetches| && fetches[k].Success? && (forall j :: 0 <= j < k ==> fetches[j].Failure?) ==>
      r == Decide(selfId, fetches[k].value)
  {
    match FirstSuccess(fetches)
    case Some(k) => Decide(selfId, fetches[k].value)
    case None => FromLivePublicIp(selfId, view)
  }

  /** The public address as the source computes it, scanning the reserved IPs
      of `inst` in order. `fetches[i]` is what the remote lookup of the i-th
      reserved IP returns. */
  method GetIEIP(inst: Instance, fetches: seq<Result<Eip, RemoteError>>) returns (r: Option<Eip>)
    requires |fetches| == |inst.ReservedIps()|
    ensures r == ResolveEip(inst.id, inst.properties.instanceView, fetches)
  {
    var i := 0;
    while i < |fetches|
      invariant 0 <= i <= |fetches|
      invariant forall j :: 0 <= j < i ==> fetches[j].Failure?
    {
      if fetches[i].Success? {
        r := Decide(inst.id, fetches[i].value);
        return;
      }
      i := i + 1;
    }
    r := FromLivePublicIp(inst.id, inst.properties.instanceView);
  }

  /** Any address returned belongs to the asking VM: it is tagged with its
      ID, and it is either unattached or attached to that same VM. */
  lemma ResolvedEipBelongsToInstance(selfId: string, view: Option<InstanceView>, fetches: seq<Result<Eip, RemoteError>>)
    ensures var r := ResolveEip(selfId, view, fetches);
      r.Some? ==> r.value.instanceId == selfId && (r.value.attachedTo.None? || r.value.attachedTo.value.id == selfId)
  {
  }

  /** No address is reported exactly when the first successful fetch is held
      by another VM, or when nothing could be fetched and the live view has
      no public IP. In the first case the live public IP is not consulted. */
  lemma NoAddressCharacterised(selfId: string, view: Option<InstanceView>, fetches: seq<Result<Eip, RemoteError>>)
    ensures ResolveEip(selfId, view, fetches).None? <==>
      (exists k :: 0 <= k < |fetches| && fetches[k].Success? && AttachedElsewhere(selfId, fetches[k].value)
         && forall j :: 0 <= j < k ==> fetches[j].Failure?)
      || ((forall i :: 0 <= i < |fetches| ==> fetches[i].Failure?)
          && !(view.Some? && |view.value.publicIpAddresses| > 0))
  {
  }

  /** A reservation held by another VM hides every later reservation and the
      live public IP alike. */
  lemma ReassignedReservationEndsScan(
    selfId: string, view: Option<InstanceView>,
    failed: seq<Result<Eip, RemoteError>>, held: Eip, rest: seq<Result<Eip, RemoteError>>)
    requires forall i :: 0 <= i < |failed| ==> failed[i].Failure?
    requires AttachedElsewhere(selfId, held)
    ensures ResolveEip(selfId, view, failed + [Success(held)] + rest) == None
  {
    var fs := failed + [Success(held)] + rest;
    assert fs[|failed|] == Success(held);
    assert forall j :: 0 <= j < |failed| ==> fs[j] == failed[j];
  }

  /** A failed lookup in front of the list changes nothing: it is skipped. */
  lemma FailedLookupSkipped(selfId: string, view: Option<InstanceView>, e: RemoteError, fetches: seq<Result<Eip, RemoteError>>)
    ensures ResolveEip(selfId, view, [Failure(e)] + fetches) == ResolveEip(selfId, view, fetches)
  {
  }
}
