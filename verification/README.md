# Azure classic VM adapter — decision logic

This project models the pure decision logic of the Azure "Classic" virtual
machine adapter of the cloudmux multi-cloud layer
(`vendor/yunion.io/x/cloudmux/pkg/multicloud/azure/classic_instance.go`),
once the remote data it needs has been fetched. The remote fetches are
inputs to the model:

- **Status normaliser** (`ClassicStatus`): maps the raw classic role
  status to Ready, Running or Unknown. When the record has no instance view,
  it first refreshes the record. The refresh is an input
  `Result<Instance, RemoteError>` and is consulted only in that case.
- **NIC identity resolver** (`ClassicNics`): yields at most one
  `(subnet reference, ip)` pair. Static virtual-network configuration comes
  first. Any missing field is completed from the live private IP.
- **Public address resolver** (`ClassicEip`): scans the reserved-IP
  references against one fetch result per reference. The first successful
  fetch decides. If no fetch succeeds, the first live public IP stands in.
- **Security-group assignment** (`ClassicSecurityGroup`): decides between a
  no-op and "delete old association, look up group, update association". It
  also builds the association ID `<vm id>/associatedNetworkSecurityGroups/<group name>`.

The records of lines 50-150 are datatypes in `ClassicTypes`. A Go nil pointer
is an `Option` and a Go slice is a `seq`. `Wrappers` holds `Option`, `Result`
and `Outcome`.

Two behaviours of the code are worth noting, and the model keeps both:
- The code (lines 448-451) returns no address as soon as the first
  successfully fetched reservation is held by another VM. It does not try
  later reservations or the live public IP. The comment at line 449 gives the
  reason: the VM was usually deallocated and its reserved IP bound to another
  machine. `ClassicEip.ReassignedReservationEndsScan` states this.
- After a successful refresh, the code reads the instance view without
  checking it again (line 250). See "## Findings".

## Model

| member | source | states |
|---|---|---|
| ClassicStatus.NormaliseRoleStatus | vendor/yunion.io/x/cloudmux/pkg/multicloud/azure/classic_instance.go:250-262 | The mapping is total. "ReadyRole" and only it gives Running. "StoppedDeallocated" and "Stopped" and only they give Ready. Every other string, including "RoleStateUnknown", gives Unknown. |
| ClassicStatus.NormaliseMatchesKnownTable | vendor/yunion.io/x/cloudmux/pkg/multicloud/azure/classic_instance.go:250-262 | The normaliser agrees with the table of the four named raw statuses and sends every string outside the table to Unknown. |
| ClassicStatus.GetStatus | vendor/yunion.io/x/cloudmux/pkg/multicloud/azure/classic_instance.go:234-262 | As written. A view that is present is mapped and the record stays unchanged. With no view and a failed refresh, the result is Unknown with the record unchanged. With no view and a successful refresh that brings a view, the refreshed record replaces the old one and its status is mapped. The read panics exactly when a successful refresh still has no view. |
| ClassicStatus.GetStatusChecked | vendor/yunion.io/x/cloudmux/pkg/multicloud/azure/classic_instance.go:242-262 | Corrected read. It never panics. A view that is present is mapped and the record stays unchanged. A failed refresh gives Unknown with the record unchanged. A successful refresh replaces the record; its view's status is mapped, or Unknown when it has no view. |
| ClassicStatus.NoRefreshWhenViewPresent | vendor/yunion.io/x/cloudmux/pkg/multicloud/azure/classic_instance.go:243-249 | When a view is present, the fetch result has no influence on the read, and the record is left as it was. |
| ClassicStatus.GetStatusCheckedIdempotent | vendor/yunion.io/x/cloudmux/pkg/multicloud/azure/classic_instance.go:243-262 | Once a read leaves a view in the record, a second read returns the same status and record, whatever its fetch would return. |
| ClassicStatus.GetStatusCheckedAgrees | vendor/yunion.io/x/cloudmux/pkg/multicloud/azure/classic_instance.go:243-250 | The corrected read equals the as-written read whenever the latter does not panic. Where it panics, the corrected read gives Unknown with the fetched record. |
| ClassicStatus.GetStatusPanicWitness | vendor/yunion.io/x/cloudmux/pkg/multicloud/azure/classic_instance.go:243-250 | A record without a view, refreshed by a record without a view, makes the as-written read panic. The corrected read gives Unknown. |
| ClassicNics.ResolveNic | vendor/yunion.io/x/cloudmux/pkg/multicloud/azure/classic_instance.go:209-231 | A NIC has both fields non-empty. With subnet names, the id is vnet ID + "/" + first subnet. With a static IP, the ip is that IP. Otherwise each field is the live private IP (the id as instance ID + "/" + private IP). No NIC exactly when a static field is missing and there is no live private IP. |
| ClassicNics.ResolveNicIsFieldwise | vendor/yunion.io/x/cloudmux/pkg/multicloud/azure/classic_instance.go:210-224 | The joint fallback step equals an independent per-field resolution (static first, then live, else empty). A NIC exists exactly when both fields are non-empty. |
| ClassicNics.StaticConfigurationWins | vendor/yunion.io/x/cloudmux/pkg/multicloud/azure/classic_instance.go:211-217 | With a subnet name and a static IP, the NIC is exactly the static pair, for every live view. |
| ClassicNics.LiveDataOnlyCompletes | vendor/yunion.io/x/cloudmux/pkg/multicloud/azure/classic_instance.go:217-224 | Live data never overrides a statically set field and never removes a NIC that static configuration alone gives. |
| ClassicNics.GetNics | vendor/yunion.io/x/cloudmux/pkg/multicloud/azure/classic_instance.go:204-231 | A fetch error passes through unchanged. Otherwise the list has at most one NIC, has one exactly when the resolver gives one, and holds that NIC. An empty list is not an error. |
| ClassicTypes.Instance.ReservedIps | vendor/yunion.io/x/cloudmux/pkg/multicloud/azure/classic_instance.go:443 | An absent reserved-IP list and an empty one are read alike: the references when the list is present, none otherwise. |
| ClassicEip.FirstSuccess | vendor/yunion.io/x/cloudmux/pkg/multicloud/azure/classic_instance.go:444-455 | The index found is a successful fetch with only failures before it. No index means every fetch failed. |
| ClassicEip.Decide | vendor/yunion.io/x/cloudmux/pkg/multicloud/azure/classic_instance.go:446-452 | A fetched reservation gives no address exactly when it is attached to a different VM. Otherwise it is returned, tagged with the asking VM's ID. |
| ClassicEip.FromLivePublicIp | vendor/yunion.io/x/cloudmux/pkg/multicloud/azure/classic_instance.go:457-469 | The fallback exists exactly when a view with a public IP exists. Its ID is the VM ID. Its name and address are the first public IP, and it is unattached. |
| ClassicEip.ResolveEip | vendor/yunion.io/x/cloudmux/pkg/multicloud/azure/classic_instance.go:442-470 | If every fetch fails (or there is none), the result is the live-public-IP fallback. Otherwise the first successful fetch alone decides the result. |
| ClassicEip.GetIEIP | vendor/yunion.io/x/cloudmux/pkg/multicloud/azure/classic_instance.go:442-470 | The source's loop over the reserved IPs, with its early returns, computes exactly the declarative resolution. |
| ClassicEip.ResolvedEipBelongsToInstance | vendor/yunion.io/x/cloudmux/pkg/multicloud/azure/classic_instance.go:447-452 | A returned address carries the asking VM's ID, and it is unattached or attached to that same VM. |
| ClassicEip.NoAddressCharacterised | vendor/yunion.io/x/cloudmux/pkg/multicloud/azure/classic_instance.go:442-470 | No address is returned exactly when the first successful fetch is held by another VM, or when every fetch failed and the live view has no public IP. |
| ClassicEip.ReassignedReservationEndsScan | vendor/yunion.io/x/cloudmux/pkg/multicloud/azure/classic_instance.go:448-451 | Failures followed by a reservation held elsewhere give no address, whatever comes after and whatever the live view holds. |
| ClassicEip.FailedLookupSkipped | vendor/yunion.io/x/cloudmux/pkg/multicloud/azure/classic_instance.go:445-454 | A failed lookup in front of the list does not change the result. |
| ClassicSecurityGroup.SecurityGroupIds | vendor/yunion.io/x/cloudmux/pkg/multicloud/azure/classic_instance.go:152-158 | There is at most one ID. There is one exactly when a group is attached, and it is that group's ID. |
| ClassicSecurityGroup.AssociationId | vendor/yunion.io/x/cloudmux/pkg/multicloud/azure/classic_instance.go:500 | The association ID starts with the VM ID, and its length is that of the VM ID, the fixed segment and the group name together. |
| ClassicSecurityGroup.AssociatedGroupName | vendor/yunion.io/x/cloudmux/pkg/multicloud/azure/classic_instance.go:492 | A name read back from an ID rebuilds that same ID. |
| ClassicSecurityGroup.AssociationIdRoundTrip | vendor/yunion.io/x/cloudmux/pkg/multicloud/azure/classic_instance.go:500 | Building an association ID and reading it back gives the group name. |
| ClassicSecurityGroup.AssociationIdInjective | vendor/yunion.io/x/cloudmux/pkg/multicloud/azure/classic_instance.go:492-500 | Within one VM, distinct group names give distinct association IDs. |
| ClassicSecurityGroup.AssignSecurityGroup | vendor/yunion.io/x/cloudmux/pkg/multicloud/azure/classic_instance.go:487-510 | No remote call is made exactly when the group is already attached, and then the result is success. Otherwise, in order: delete the old association (only if one exists), then look up the group. A failed lookup ends with its error. A successful one issues the update with the derived association ID, name and group reference, and returns the update's result. |
| ClassicSecurityGroup.AssignmentTouchesOnlyOwnAssociations | vendor/yunion.io/x/cloudmux/pkg/multicloud/azure/classic_instance.go:487-510 | Every association that an assignment deletes or creates has an ID of this VM's association shape. For the update, the group name reads back from that ID. |

## Left out

- REST transport (list, get, perform, update, del, the region's instance, reserved-IP and security-group lookups): foreign I/O. Their results are inputs (`Result` values, or `Outcome` for the update).
- Start, stop, attach-disk and detach-disk: each issues one remote action and then polls through the status-wait helper of the cloudprovider package. That helper is not part of this model. It depends on wall-clock sleeps and timeouts.
- Refresh (lines 234-240) merges the fetched JSON into the record. `ClassicStatus.GetStatus` treats a successful refresh as replacing the record.
- The VM-size table (vCPU count, memory), OS-type normalisation and resource-group derivation: their definitions are not part of this model.
- Logging: the source logs an unrecognised role status, a failed status refresh and a failed reserved-IP lookup. None of these calls changes a result.
- DeleteVM and its order of side effects; disk listing (GetIDisks); system tags; the global ID's lower-casing: field copying and transport.
- Constant getters (machine, boot order, VGA, VDI, BIOS, OS arch, billing type, timestamps) and the not-supported and not-implemented stubs (change-config, deploy, rebuild-root, update, VNC, set-security-groups, user-data, renew): one-line returns with nothing to state.
- The guest-agent status and formatted-message records (lines 37-48), and the guest-agent field of the instance view. No modelled operation reads them.
- Go's 32-bit integer fields (disk LUN and size, endpoint ports) are unbounded integers here, and the embedded Azure tags of the VM record (line 139) are not modelled. No modelled operation reads any of them.
- The back-pointers from a NIC or an address to its VM and region: these are object links, not values.
- GetINics (lines 373-384) only wraps each NIC from getNics in an interface value. `ClassicNics.GetNics` stands for both.
- ClassicEip.GetIEIP: requires one fetch result per reserved IP. This is how the remote lookups enter the model; the source makes no such demand of its callers.

## Findings

| source | as written | input that shows it | evidently intended | confidence | as-written member | corrected member |
|---|---|---|---|---|---|---|
| vendor/yunion.io/x/cloudmux/pkg/multicloud/azure/classic_instance.go:243-250 | After a successful refresh, the code reads `InstanceView.Status` without checking whether the refreshed record has an instance view. | A record with no instance view, whose refresh succeeds with a record that also has no instance view: the read dereferences nil. | Report Unknown, as for a failed refresh. | medium, not executed (the point fetch asks Azure to expand the instance view, so a response without one is unusual) | ClassicStatus.GetStatusPanicWitness | ClassicStatus.GetStatusChecked |
