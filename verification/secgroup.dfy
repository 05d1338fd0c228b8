/** Security-group handling of a classic VM: the IDs of the attached group,
    and the decision taken when a group is assigned — nothing to do, or drop
    the old association and create the new one under an ID derived from the
    VM and the group name (classic_instance.go, lines 152-158 and 472-510). */
module ClassicSecurityGroup {
  import opened Wrappers
  import opened ClassicTypes

  /** The path segment between the VM ID and the group name in an
      association ID. */
  const AssociationSegment: string := "/associatedNetworkSecurityGroups/"

  /** IDs of the security groups attached to the VM: the one attached group,
      or none. */
  function SecurityGroupIds(inst: Instance): (ids: seq<string>)
    ensures |ids| <= 1
    ensures |ids| == 1 <==> inst.properties.networkProfile.networkSecurityGroup.Some?
    ensures forall i :: 0 <= i < |ids| ==> ids[i] == inst.properties.networkProfile.networkSecurityGroup.value.id
  {
    match inst.properties.networkProfile.networkSecurityGroup
    case Some(g) => [g.id]
    case None => []
  }

  /** The ID under which group `groupName` is associated with VM `instanceId`. */
  function AssociationId(instanceId: string, groupName: string): (id: string)
    ensures |id| == |instanceId| + |AssociationSegment| + |groupName|
    ensures id[..|instanceId|] == instanceId
  {
    instanceId + AssociationSegment + groupName
  }

  /** Recovers the group name from an association ID of VM `instanceId`, or
      None when the ID is not of that shape. */
  function AssociatedGroupName(instanceId: string, assocId: string): (name: Option<string>)
    ensures name.Some? ==> AssociationId(instanceId, name.value) == assocId
  {
    var prefix := instanceId + AssociationSegment;
    if |prefix| <= |assocId| && assocId[..|prefix|] == prefix then
      assert assocId == prefix + assocId[|prefix|..];
      Some(assocId[|prefix|..])
    else None
  }

  /** Building an association ID and reading the name back is the identity. */
  lemma AssociationIdRoundTrip(instanceId: string, groupName: string)
    ensures AssociatedGroupName(instanceId, AssociationId(instanceId, groupName)) == Some(groupName)
  {
  }

  /** Distinct group names give distinct association IDs for one VM. */
  lemma AssociationIdInjective(instanceId: string, n1: string, n2: string)
    requires AssociationId(instanceId, n1) == AssociationId(instanceId, n2)
    ensures n1 == n2
  {
    AssociationIdRoundTrip(instanceId, n1);
    AssociationIdRoundTrip(instanceId, n2);
  }

  /** The body of the association update request. The nested reference
      carries the group's ID and name and an empty type. */
  datatype Association = Association(id: string, name: string, group: SubResource)

  /** The remote calls an assignment issues, in order. */
  datatype RemoteCall =
    | DeleteAssociation(path: string)
    | FetchGroupDetails(groupId: string)
    | UpdateAssociation(body: Association)

  /** The calls issued and the error, if any, returned to the caller. */
  datatype AssignOutcome = AssignOutcome(calls: seq<RemoteCall>, result: Outcome<RemoteError>)

  /** Assigning group `groupId` to the VM. `details` is what the remote
      lookup of the group returns and `updated` what the association update
      returns; the result of deleting the old association is ignored by the
      source and so is not an input. */
  function AssignSecurityGroup(
    inst: Instance, groupId: string,
    details: Result<SubResource, RemoteError>, updated: Outcome<RemoteError>): (o: AssignOutcome)
    ensures o.calls == [] <==> groupId in SecurityGroupIds(inst)
    ensures o.calls == [] ==> o.result == Pass
    ensures o.calls != [] ==>
      var attached := inst.properties.networkProfile.networkSecurityGroup;
      var lookup := if attached.Some? then 1 else 0;
      |o.calls| > lookup
      && (attached.Some? ==> o.calls[0] == DeleteAssociation(AssociationId(inst.id, attached.value.name)))
      && o.calls[lookup] == FetchGroupDetails(groupId)
      && (details.Failure? ==> |o.calls| == lookup + 1 && o.result == Fail(details.error))
      && (details.Success? ==>
            |o.calls| == lookup + 2 && o.result == updated
            && o.calls[lookup + 1].UpdateAssociation?
            && o.calls[lookup + 1].body.id == AssociationId(inst.id, details.value.name)
            && o.calls[lookup + 1].body.name == details.value.name
            && o.calls[lookup + 1].body.group == SubResource(details.value.id, details.value.name, ""))
  {
    var drop :=
      match inst.properties.networkProfile.networkSecurityGroup
      case None => []
      case Some(g) => [DeleteAssociation(AssociationId(inst.id, g.name))];
    if inst.properties.networkProfile.networkSecurityGroup.Some?
       && inst.properties.networkProfile.networkSecurityGroup.value.id == groupId then
      AssignOutcome([], Pass)
    else
      match details
      case Failure(e) => AssignOutcome(drop + [FetchGroupDetails(groupId)], Fail(e))
      case Success(g) =>
        var body := Association(AssociationId(inst.id, g.name), g.name, SubResource(g.id, g.name, ""));
        AssignOutcome(drop + [FetchGroupDetails(groupId), UpdateAssociation(body)], updated)
  }

  /** Every association the assignment deletes or creates belongs to this VM:
      its ID names the VM, and the group name can be read back from it. */
  lemma AssignmentTouchesOnlyOwnAssociations(
    inst: Instance, groupId: string,
    details: Result<SubResource, RemoteError>, updated: Outcome<RemoteError>)
    ensures forall c :: c in AssignSecurityGroup(inst, groupId, details, updated).calls ==>
      (c.DeleteAssociation? ==> AssociatedGroupName(inst.id, c.path).Some?)
      && (c.UpdateAssociation? ==> AssociatedGroupName(inst.id, c.body.id) == Some(c.body.name))
  {
  }
}
