/** Responses of the dashboard's HTTP handlers, and the gate and dispatch
    shared by the five per-VM handlers (`/api/vm/details`, `/api/vm/start`,
    `/api/vm/stop`, `/api/vm/restart`, `/api/vm/delete`): authentication is
    checked first (401), then the two required fields (400); only a request
    that passes both reaches the compute client. */
module Api {
  import opened Wrappers
  import opened Compute
  import opened PowerStates
  import opened Inventory

  datatype Page = LoginPage | DashboardPage

  /** The body of `/api/vm/details`. */
  datatype VmDetail = VmDetail(name: string, resourceGroup: string, location: string,
                               vmSize: Option<string>, osType: Option<string>,
                               powerState: string)

  /** What a handler answers with. `UpstreamError` is `{"error": ...}` whose
      text comes from the SDK's exception. */
  datatype Body =
    | Error(message: string)
    | UpstreamError
    | Message(message: string)
    | Listing(vms: seq<VmSummary>)
    | Detail(detail: VmDetail)
    | Counts(tally: Tally)
    | RedirectTo(page: Page)
    | Rendered(page: Page, error: Option<string>)

  datatype Response = Response(status: int, body: Body)

  const RequiredMessage: string := "resource_group and vm_name are required"

  function Unauthorized(): Response {
    Response(401, Error("Unauthorized"))
  }

  function MissingFields(): Response {
    Response(400, Error(RequiredMessage))
  }

  /** A call into the compute client raised: the handler's `except` answers 500. */
  function UpstreamFailure(): Response {
    Response(500, UpstreamError)
  }

  /** Python truthiness of a field read with `.get(...)`: present and non-empty. */
  predicate Present(field: Option<string>) {
    field.Some? && field.value != ""
  }

  datatype VmAction = Details | Start | Stop | Restart | Delete

  /** The operation each mutation handler starts; stopping a VM deallocates it. */
  function LifecycleOf(action: VmAction): Lifecycle
    requires action != Details
  {
    match action
    case Start => BeginStart
    case Stop => BeginDeallocate
    case Restart => BeginRestart
    case Delete => BeginDelete
  }

  /** The fixed message of a mutation handler that started its operation. */
  function InitiatedMessage(action: VmAction): string
    requires action != Details
  {
    match action
    case Start => "VM start initiated"
    case Stop => "VM stop initiated"
    case Restart => "VM restart initiated"
    case Delete => "VM delete initiated"
  }

  /** `vm.hardware_profile.vm_size if vm.hardware_profile else None`. */
  function VmSizeOf(record: VmRecord): (size: Option<string>)
    ensures size.Some? <==> record.hardwareProfile.Some? && record.hardwareProfile.value.vmSize.Some?
    ensures size.Some? ==> size == record.hardwareProfile.value.vmSize
  {
    match record.hardwareProfile
    case None => None
    case Some(profile) => profile.vmSize
  }

  /** The OS disk's OS type when the storage profile, its OS disk and the
      disk's OS type are all present. */
  predicate HasOsType(record: VmRecord, t: OsType) {
    record.storageProfile.Some? && record.storageProfile.value.osDisk.Some?
    && record.storageProfile.value.osDisk.value.osType == Some(t)
  }

  /** The OS type's value when the storage profile, its OS disk and the disk's
      OS type are all present, and `None` otherwise. */
  function OsTypeOf(record: VmRecord): (osType: Option<string>)
    ensures osType.Some? <==> record.storageProfile.Some? && record.storageProfile.value.osDisk.Some?
                              && record.storageProfile.value.osDisk.value.osType.Some?
    ensures osType == Some("Linux") <==> HasOsType(record, Linux)
    ensures osType == Some("Windows") <==> HasOsType(record, Windows)
  {
    if record.storageProfile.Some? && record.storageProfile.value.osDisk.Some?
       && record.storageProfile.value.osDisk.value.osType.Some?
    then Some(OsTypeName(record.storageProfile.value.osDisk.value.osType.value))
    else None
  }

  /** The part of a per-VM handler after the gate: `get` and the power state
      for details, or the one `begin_*` call for a mutation. */
  function Perform(action: VmAction, key: VmKey, cloud: Cloud): (out: (Response, seq<Op>))
    // a mutation: its one `begin_*` call, refused (500) or initiated
    ensures action != Details ==>
              out.1 == [Begin(LifecycleOf(action), key)] &&
              (out.0 == UpstreamFailure() <==> out.1[0] in cloud.refused) &&
              (out.0 != UpstreamFailure() ==> out.0 == Response(200, Message(InitiatedMessage(action))))
    // details: `get`, then the instance view only when `get` answered
    ensures action == Details ==>
              |out.1| >= 1 && out.1[0] == Get(key) &&
              (out.1 == [Get(key)] <==> key !in cloud.records) &&
              (key in cloud.records ==> out.1 == [Get(key), InstanceView(key)]) &&
              (out.0.status == 200 <==> key in cloud.records && key in cloud.views) &&
              (out.0.status != 200 ==> out.0 == UpstreamFailure())
    ensures action == Details && out.0.status == 200 ==>
              out.0.body == Detail(VmDetail(cloud.records[key].name, key.0, cloud.records[key].location,
                                            VmSizeOf(cloud.records[key]), OsTypeOf(cloud.records[key]),
                                            PowerStateOf(cloud.views[key])))
  {
    if action == Details then
      if key !in cloud.records then (UpstreamFailure(), [Get(key)])
      else if key !in cloud.views then (UpstreamFailure(), [Get(key), InstanceView(key)])
      else
        var vm := cloud.records[key];
        var detail := VmDetail(vm.name, key.0, vm.location, VmSizeOf(vm), OsTypeOf(vm),
                               PowerStateOf(cloud.views[key]));
        (Response(200, Detail(detail)), [Get(key), InstanceView(key)])
    else
      var op := Begin(LifecycleOf(action), key);
      if op in cloud.refused then (UpstreamFailure(), [op])
      else (Response(200, Message(InitiatedMessage(action))), [op])
  }

  /** A per-VM handler: the response and the calls it makes into the compute
      client, for a session that is or is not authenticated and the two
      fields as read from the request. */
  function Dispatch(authenticated: bool, action: VmAction, rg: Option<string>, vmName: Option<string>,
                    cloud: Cloud): (out: (Response, seq<Op>))
    // the gate: 401 before 400, and neither makes a call
    ensures !authenticated ==> out == (Unauthorized(), [])
    ensures authenticated && !(Present(rg) && Present(vmName)) ==> out == (MissingFields(), [])
    ensures out.1 != [] <==> authenticated && Present(rg) && Present(vmName)
    // a mutation makes exactly one call, on the requested VM
    ensures out.1 != [] && action == Start ==> out.1 == [Begin(BeginStart, (rg.value, vmName.value))]
    ensures out.1 != [] && action == Stop ==> out.1 == [Begin(BeginDeallocate, (rg.value, vmName.value))]
    ensures out.1 != [] && action == Restart ==> out.1 == [Begin(BeginRestart, (rg.value, vmName.value))]
    ensures out.1 != [] && action == Delete ==> out.1 == [Begin(BeginDelete, (rg.value, vmName.value))]
    ensures out.1 != [] && action != Details ==>
              out.0 == if out.1[0] in cloud.refused then UpstreamFailure()
                       else Response(200, Message(InitiatedMessage(action)))
    // details reads the VM, then its power state
    ensures out.1 != [] && action == Details ==>
              var key := (rg.value, vmName.value);
              out.1[0] == Get(key) &&
              (key !in cloud.records ==> out.1 == [Get(key)]) &&
              (key in cloud.records ==> out.1 == [Get(key), InstanceView(key)]) &&
              (out.0.status == 200 <==> key in cloud.records && key in cloud.views) &&
              (out.0.status == 200 ==>
                 out.1 == [Get(key), InstanceView(key)] &&
                 out.0.body == Detail(VmDetail(cloud.records[key].name, rg.value, cloud.records[key].location,
                                               VmSizeOf(cloud.records[key]), OsTypeOf(cloud.records[key]),
                                               PowerStateOf(cloud.views[key])))) &&
              (out.0.status != 200 ==> out.0 == UpstreamFailure())
    ensures out.0.status in {200, 400, 401, 500}
  {
    if !authenticated then (Unauthorized(), [])
    else if !Present(rg) || !Present(vmName) then (MissingFields(), [])
    else Perform(action, (rg.value, vmName.value), cloud)
  }
}
