/** Status of a classic VM as the multi-cloud layer sees it: the raw Azure
    role status is normalised to one of three values, fetching the live
    instance view first when the record does not hold one yet
    (classic_instance.go, lines 234-263). */
module ClassicStatus {
  import opened Wrappers
  import opened ClassicTypes

  /** The normalised VM statuses this adapter can report. */
  datatype VmStatus = Ready | Running | Unknown

  /** Every raw role status the adapter names explicitly, with its normalised
      value. Any other string is unrecognised. */
  const KnownRoleStatuses: map<string, VmStatus> :=
    map["StoppedDeallocated" := Ready, "ReadyRole" := Running,
        "Stopped" := Ready, "RoleStateUnknown" := Unknown]

  /** Normalises one raw role status. Total: every string has a status. */
  function NormaliseRoleStatus(raw: string): (s: VmStatus)
    ensures s == Running <==> raw == "ReadyRole"
    ensures s == Ready <==> raw == "StoppedDeallocated" || raw == "Stopped"
    ensures s == Unknown <==> raw != "ReadyRole" && raw != "StoppedDeallocated" && raw != "Stopped"
  {
    match raw
    case "StoppedDeallocated" => Ready
    case "ReadyRole" => Running
    case "Stopped" => Ready
    case "RoleStateUnknown" => Unknown
    case _ => Unknown
  }

  /** Cross-check of the normaliser against the table of named statuses: it
      agrees on the table and sends every string outside it to Unknown. */
  lemma NormaliseMatchesKnownTable(raw: string)
    ensures raw in KnownRoleStatuses ==> NormaliseRoleStatus(raw) == KnownRoleStatuses[raw]
    ensures raw !in KnownRoleStatuses ==> NormaliseRoleStatus(raw) == Unknown
  {
  }

  /** What reading the status yields: the status and the record afterwards
      (possibly replaced by a refresh), or a nil-pointer panic. */
  datatype StatusRead = Read(status: VmStatus, after: Instance) | Panicked

  /** The status read exactly as the source does it. `refresh` is what the
      one remote fetch of the record would return; it is consulted only when
      the record has no instance view, and on success it replaces the record.
      A successful refresh that still has no instance view is followed by a
      dereference of the absent view, which panics in Go. */
  function GetStatus(inst: Instance, refresh: Result<Instance, RemoteError>): (r: StatusRead)
    ensures inst.properties.instanceView.Some? ==>
      r.Read? && r.after == inst && r.status == NormaliseRoleStatus(inst.properties.instanceView.value.status)
    ensures inst.properties.instanceView.None? && refresh.Failure? ==> r == Read(Unknown, inst)
    ensures r.Panicked? <==>
      inst.properties.instanceView.None? && refresh.Success? && refresh.value.properties.instanceView.None?
    ensures inst.properties.instanceView.None? && refresh.Success? && refresh.value.properties.instanceView.Some? ==>
      r == Read(NormaliseRoleStatus(refresh.value.properties.instanceView.value.status), refresh.value)
  {
    if inst.properties.instanceView.None? then
      match refresh
      case Failure(_) => Read(Unknown, inst)
      case Success(latest) =>
        if latest.properties.instanceView.None? then Panicked
        else Read(NormaliseRoleStatus(latest.properties.instanceView.value.status), latest)
    else
      Read(NormaliseRoleStatus(inst.properties.instanceView.value.status), inst)
  }

  /** The status read with the absent-view case handled: a refresh that
      brings back no instance view reports Unknown, like a failed one. */
  function GetStatusChecked(inst: Instance, refresh: Result<Instance, RemoteError>): (r: StatusRead)
    ensures r.Read?
    ensures inst.properties.instanceView.Some? ==>
      r == Read(NormaliseRoleStatus(inst.properties.instanceView.value.status), inst)
    ensures inst.properties.instanceView.None? && refresh.Failure? ==> r == Read(Unknown, inst)
    ensures inst.properties.instanceView.None? && refresh.Success? ==>
      r.after == refresh.value
      && r.status == (if refresh.value.properties.instanceView.Some?
                      then NormaliseRoleStatus(refresh.value.properties.instanceView.value.status)
                      else Unknown)
    ensures r.status != Unknown ==> r.after.properties.instanceView.Some?
  {
    if inst.properties.instanceView.None? then
      match refresh
      case Failure(_) => Read(Unknown, inst)
      case Success(latest) =>
        if latest.properties.instanceView.None? then Read(Unknown, latest)
        else Read(NormaliseRoleStatus(latest.properties.instanceView.value.status), latest)
    else
      Read(NormaliseRoleStatus(inst.properties.instanceView.value.status), inst)
  }

  /** A record that already holds an instance view is never refreshed: the
      fetch result cannot influence the read. */
  lemma NoRefreshWhenViewPresent(inst: Instance, f1: Result<Instance, RemoteError>, f2: Result<Instance, RemoteError>)
    requires inst.properties.instanceView.Some?
    ensures GetStatusChecked(inst, f1) == GetStatusChecked(inst, f2)
    ensures GetStatusChecked(inst, f1).after == inst
  {
  }

  /** Reading the status twice in a row gives the same answer once the first
      read has left an instance view in the record: the second read issues
      no fetch, whatever that fetch would return. */
  lemma GetStatusCheckedIdempotent(inst: Instance, f1: Result<Instance, RemoteError>, f2: Result<Instance, RemoteError>)
    requires GetStatusChecked(inst, f1).after.properties.instanceView.Some?
    ensures GetStatusChecked(GetStatusChecked(inst, f1).after, f2) == GetStatusChecked(inst, f1)
  {
  }

  /** The corrected read differs from the source's only where the source
      panics. */
  lemma GetStatusCheckedAgrees(inst: Instance, refresh: Result<Instance, RemoteError>)
    ensures GetStatus(inst, refresh).Read? ==> GetStatusChecked(inst, refresh) == GetStatus(inst, refresh)
    ensures GetStatus(inst, refresh).Panicked? ==> GetStatusChecked(inst, refresh) == Read(Unknown, refresh.value)
  {
  }

  /** A concrete record on which the source's read panics: no instance view,
      and a refresh that succeeds without one. */
  lemma GetStatusPanicWitness()
    ensures
      var inst := EmptyInstance("vm");
      GetStatus(inst, Success(inst)) == Panicked
      && GetStatusChecked(inst, Success(inst)) == Read(Unknown, inst)
  {
  }
}
